/**
 * The `WorkOrder` record. Its status is stored as a raw string and read through a getter
 * that falls back to `received` for an unknown value.
 */
module WorkOrders {
  import opened Wrappers
  import opened OrderStatus

  /** Dates are integer timestamps. */
  type Timestamp = int

  /** A repair job. `id` stands for the UUID; `estimatedCost` for the `Double` amount. */
  datatype WorkOrder = WorkOrder(
    id: nat,
    customerName: string,
    deviceDescription: string,
    problemDescription: string,
    statusRaw: string,
    createdAt: Timestamp,
    updatedAt: Option<Timestamp>,
    estimatedCost: real)

  /** `raw` is the raw value of one of the six statuses. */
  ghost predicate IsKnownRaw(raw: string) {
    exists s: WorkOrderStatus :: RawValue(s) == raw
  }

  /** The `status` getter: the parsed `statusRaw`, or `received` when it is not recognised. */
  function Status(o: WorkOrder): (s: WorkOrderStatus)
    ensures IsKnownRaw(o.statusRaw) ==> RawValue(s) == o.statusRaw
    ensures !IsKnownRaw(o.statusRaw) ==> s == Received
  {
    Parse(o.statusRaw).GetOr(Received)
  }

  /** The `status` setter: it stores the raw value and touches no other field. */
  function WithStatus(o: WorkOrder, s: WorkOrderStatus): (r: WorkOrder)
    ensures Status(r) == s
    ensures r.(statusRaw := o.statusRaw) == o
  {
    ParseRawValue(s);
    o.(statusRaw := RawValue(s))
  }

  /** `init`: every field from its argument, the status through its raw value. */
  function NewWorkOrder(
    id: nat,
    customerName: string,
    deviceDescription: string,
    problemDescription: string,
    status: WorkOrderStatus,
    createdAt: Timestamp,
    updatedAt: Option<Timestamp> := None,
    estimatedCost: real): (o: WorkOrder)
    ensures Status(o) == status && o.statusRaw == RawValue(status)
    ensures o.id == id && o.customerName == customerName && o.deviceDescription == deviceDescription
    ensures o.problemDescription == problemDescription && o.createdAt == createdAt
    ensures o.updatedAt == updatedAt && o.estimatedCost == estimatedCost
  {
    ParseRawValue(status);
    WorkOrder(id, customerName, deviceDescription, problemDescription, RawValue(status),
              createdAt, updatedAt, estimatedCost)
  }

  /** Setting the status and then setting it again keeps only the last value. */
  lemma SetStatusTwice(o: WorkOrder, s: WorkOrderStatus, t: WorkOrderStatus)
    ensures WithStatus(WithStatus(o, s), t) == WithStatus(o, t)
  {
  }

  /** The getter reads back what is stored when the raw value is known, else `received`. */
  lemma StatusOfRaw(o: WorkOrder, s: WorkOrderStatus)
    ensures o.statusRaw == RawValue(s) ==> Status(o) == s
    ensures Parse(o.statusRaw) == None ==> Status(o) == Received
  {
    ParseRawValue(s);
  }
}
