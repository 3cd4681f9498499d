/** The six states of a work order, persisted by their raw strings. */
module OrderStatus {
  import opened Wrappers

  datatype WorkOrderStatus = Received | InDiagnosis | InRepair | WaitingParts | Ready | Delivered

  /** `allCases`, in declaration order. */
  const AllCases: seq<WorkOrderStatus> := [Received, InDiagnosis, InRepair, WaitingParts, Ready, Delivered]

  /** `rawValue` */
  function RawValue(s: WorkOrderStatus): string {
    match s
    case Received => "received"
    case InDiagnosis => "in_diagnosis"
    case InRepair => "in_repair"
    case WaitingParts => "waiting_parts"
    case Ready => "ready"
    case Delivered => "delivered"
  }

  /** `init?(rawValue:)`: the case whose raw value is `raw`, if any. */
  function Parse(raw: string): (r: Option<WorkOrderStatus>)
    ensures r.Some? ==> RawValue(r.value) == raw
    ensures r.None? <==> forall s: WorkOrderStatus :: RawValue(s) != raw
  {
    if raw == "received" then Some(Received)
    else if raw == "in_diagnosis" then Some(InDiagnosis)
    else if raw == "in_repair" then Some(InRepair)
    else if raw == "waiting_parts" then Some(WaitingParts)
    else if raw == "ready" then Some(Ready)
    else if raw == "delivered" then Some(Delivered)
    else None
  }

  /** `id`, used by SwiftUI lists and pickers. */
  function Id(s: WorkOrderStatus): (r: string)
    ensures r == RawValue(s)
  {
    RawValue(s)
  }

  /** `localizedTitle`, the text shown in the interface. */
  function LocalizedTitle(s: WorkOrderStatus): string {
    match s
    case Received => "Recibido"
    case InDiagnosis => "En diagnóstico"
    case InRepair => "En reparación"
    case WaitingParts => "Esperando refacciones"
    case Ready => "Listo para entregar"
    case Delivered => "Entregado"
  }

  /** `allCases` lists all six cases once each, in the declared order. */
  lemma AllCasesExact()
    ensures |AllCases| == 6
    ensures forall s: WorkOrderStatus :: s in AllCases
    ensures forall i, j :: 0 <= i < j < |AllCases| ==> AllCases[i] != AllCases[j]
    ensures AllCases[0] == Received && AllCases[5] == Delivered
  {
    forall s: WorkOrderStatus ensures s in AllCases {
      match s
      case Received => assert AllCases[0] == s;
      case InDiagnosis => assert AllCases[1] == s;
      case InRepair => assert AllCases[2] == s;
      case WaitingParts => assert AllCases[3] == s;
      case Ready => assert AllCases[4] == s;
      case Delivered => assert AllCases[5] == s;
    }
  }

  /** Parsing a raw value yields its case: the raw values are pairwise distinct. */
  lemma {:induction false} ParseRawValue(s: WorkOrderStatus)
    ensures Parse(RawValue(s)) == Some(s)
  {
    match s
    case Received =>
    case InDiagnosis => assert RawValue(s)[0] == 'i' && RawValue(s)[3] == 'd';
    case InRepair => assert RawValue(s)[3] == 'r';
    case WaitingParts => assert RawValue(s)[0] == 'w';
    case Ready => assert RawValue(s)[0] == 'r' && |RawValue(s)| == 5;
    case Delivered => assert RawValue(s)[0] == 'd';
  }

  /** Distinct cases have distinct raw values and distinct titles. */
  lemma NamesInjective(s: WorkOrderStatus, t: WorkOrderStatus)
    ensures RawValue(s) == RawValue(t) ==> s == t
    ensures LocalizedTitle(s) == LocalizedTitle(t) ==> s == t
  {
    ParseRawValue(s);
    ParseRawValue(t);
  }
}
