/**
 * `FilterWorkOrdersUseCase`: a fetch with an optional combined predicate (status, earliest and
 * latest creation date), sorted newest first, then an in-memory text search.
 */
module FilterWorkOrders {
  import opened Wrappers
  import opened Text
  import opened Seqs
  import opened OrderStatus
  import opened WorkOrders
  import opened Persistence

  /** `WorkOrderFilter`: every criterion is optional. */
  datatype WorkOrderFilter = WorkOrderFilter(
    status: Option<WorkOrderStatus> := None,
    minDate: Option<Timestamp> := None,
    maxDate: Option<Timestamp> := None,
    searchText: Option<string> := None)

  /** One of the three `#Predicate` closures the use case can build. */
  datatype Criterion =
    | StatusRawIs(raw: string)
    | CreatedOnOrAfter(min: Timestamp)
    | CreatedOnOrBefore(max: Timestamp)

  /** A SwiftData predicate: a single criterion, or the conjunction `reduce` builds. */
  datatype Predicate = Leaf(criterion: Criterion) | Both(partial: Predicate, next: Predicate)

  predicate Holds(c: Criterion, o: WorkOrder) {
    match c
    case StatusRawIs(raw) => o.statusRaw == raw
    case CreatedOnOrAfter(min) => o.createdAt >= min
    case CreatedOnOrBefore(max) => o.createdAt <= max
  }

  /** `evaluate` */
  predicate Evaluate(p: Predicate, o: WorkOrder) {
    match p
    case Leaf(c) => Holds(c, o)
    case Both(partial, next) => Evaluate(partial, o) && Evaluate(next, o)
  }

  /** Every predicate of `ps` accepts `o`. */
  predicate AllHold(ps: seq<Predicate>, o: WorkOrder) {
    forall i :: 0 <= i < |ps| ==> Evaluate(ps[i], o)
  }

  /** `predicates.dropFirst().reduce(first) { partial, next in partial && next }` */
  function Reduce(first: Predicate, rest: seq<Predicate>): Predicate
    decreases |rest|
  {
    if rest == [] then first else Reduce(Both(first, rest[0]), rest[1..])
  }

  /** The reduction accepts exactly what its seed and every remaining predicate accept. */
  lemma {:induction false} ReduceIsConjunction(first: Predicate, rest: seq<Predicate>, o: WorkOrder)
    ensures Evaluate(Reduce(first, rest), o) <==> Evaluate(first, o) && AllHold(rest, o)
    decreases |rest|
  {
    if rest != [] {
      ReduceIsConjunction(Both(first, rest[0]), rest[1..], o);
      assert AllHold(rest, o) <==> Evaluate(rest[0], o) && AllHold(rest[1..], o) by {
        if Evaluate(rest[0], o) && AllHold(rest[1..], o) {
          forall i | 0 <= i < |rest| ensures Evaluate(rest[i], o) {
            if i > 0 { assert rest[i] == rest[1..][i - 1]; }
          }
        }
      }
    }
  }

  /** The `switch predicates.count` that builds `finalPredicate`. */
  function Combine(ps: seq<Predicate>): (r: Option<Predicate>)
    ensures r.None? <==> ps == []
  {
    if |ps| == 0 then None
    else if |ps| == 1 then Some(ps[0])
    else Some(Reduce(ps[0], ps[1..]))
  }

  /** The combined predicate is the conjunction of all of them; without any, there is none. */
  lemma CombineIsConjunction(ps: seq<Predicate>, o: WorkOrder)
    requires ps != []
    ensures Evaluate(Combine(ps).value, o) <==> AllHold(ps, o)
  {
    if |ps| > 1 {
      ReduceIsConjunction(ps[0], ps[1..], o);
      assert AllHold(ps, o) <==> Evaluate(ps[0], o) && AllHold(ps[1..], o) by {
        if Evaluate(ps[0], o) && AllHold(ps[1..], o) {
          forall i | 0 <= i < |ps| ensures Evaluate(ps[i], o) {
            if i > 0 { assert ps[i] == ps[1..][i - 1]; }
          }
        }
      }
    }
  }

  /** No order is created before one that follows it. */
  predicate NewestFirst(s: seq<WorkOrder>) {
    forall i, j :: 0 <= i < j < |s| ==> s[i].createdAt >= s[j].createdAt
  }

  /** Inserts `o` into a newest-first sequence, ahead of the orders created at the same time. */
  function Insert(o: WorkOrder, s: seq<WorkOrder>): (r: seq<WorkOrder>)
    ensures multiset(r) == multiset(s) + multiset{o}
  {
    if s == [] then [o]
    else if o.createdAt >= s[0].createdAt then [o] + s
    else
      assert s == [s[0]] + s[1..];
      [s[0]] + Insert(o, s[1..])
  }

  /** `SortDescriptor(\.createdAt, order: .reverse)`, as an insertion sort. */
  function SortNewestFirst(s: seq<WorkOrder>): (r: seq<WorkOrder>)
    ensures multiset(r) == multiset(s)
  {
    if s == [] then []
    else
      assert s == [s[0]] + s[1..];
      Insert(s[0], SortNewestFirst(s[1..]))
  }

  /** The head of a newest-first sequence is created no earlier than any of its orders. */
  lemma HeadIsNewest(s: seq<WorkOrder>)
    requires s != [] && NewestFirst(s)
    ensures forall x :: x in s ==> x.createdAt <= s[0].createdAt
  {
    forall x | x in s ensures x.createdAt <= s[0].createdAt {
      var i :| 0 <= i < |s| && s[i] == x;
    }
  }

  /** An order no older than every order of a newest-first sequence may lead it. */
  lemma ConsKeepsOrder(x: WorkOrder, r: seq<WorkOrder>)
    requires NewestFirst(r) && forall y :: y in r ==> y.createdAt <= x.createdAt
    ensures NewestFirst([x] + r)
  {
    forall i, j | 0 <= i < j < |[x] + r| ensures ([x] + r)[i].createdAt >= ([x] + r)[j].createdAt {
      if i > 0 {
        assert ([x] + r)[i] == r[i - 1] && ([x] + r)[j] == r[j - 1];
      } else {
        assert ([x] + r)[j] in r;
      }
    }
  }

  lemma {:induction false} InsertKeepsOrder(o: WorkOrder, s: seq<WorkOrder>)
    requires NewestFirst(s)
    ensures NewestFirst(Insert(o, s))
  {
    if s != [] {
      HeadIsNewest(s);
      if o.createdAt < s[0].createdAt {
        assert NewestFirst(s[1..]) by {
          forall i, j | 0 <= i < j < |s[1..]| ensures s[1..][i].createdAt >= s[1..][j].createdAt {
            assert s[1..][i] == s[i + 1] && s[1..][j] == s[j + 1];
          }
        }
        InsertKeepsOrder(o, s[1..]);
        var r := Insert(o, s[1..]);
        forall x | x in r ensures x.createdAt <= s[0].createdAt {
          assert x in multiset(r);
          if x != o {
            assert x in multiset(s[1..]);
            assert x in s;
          }
        }
        ConsKeepsOrder(s[0], r);
      } else {
        ConsKeepsOrder(o, s);
      }
    }
  }

  /** The sort yields a newest-first permutation of its input. */
  lemma {:induction false} SortIsNewestFirst(s: seq<WorkOrder>)
    ensures NewestFirst(SortNewestFirst(s))
  {
    if s != [] {
      SortIsNewestFirst(s[1..]);
      InsertKeepsOrder(s[0], SortNewestFirst(s[1..]));
    }
  }

  /** Filtering keeps a newest-first sequence newest first. */
  lemma {:induction false} FilterKeepsOrder(s: seq<WorkOrder>, p: WorkOrder -> bool)
    requires NewestFirst(s)
    ensures NewestFirst(Filter(s, p))
  {
    if s != [] {
      HeadIsNewest(s);
      assert NewestFirst(s[1..]) by {
        forall i, j | 0 <= i < j < |s[1..]| ensures s[1..][i].createdAt >= s[1..][j].createdAt {
          assert s[1..][i] == s[i + 1] && s[1..][j] == s[j + 1];
        }
      }
      FilterKeepsOrder(s[1..], p);
      var r := Filter(s[1..], p);
      if p(s[0]) {
        forall x | x in r ensures x.createdAt <= s[0].createdAt {
          assert x in s;
        }
        ConsKeepsOrder(s[0], r);
      }
    }
  }

  /** `context.fetch(descriptor)`: the stored orders the predicate accepts, newest first. */
  function Fetch(store: seq<WorkOrder>, p: Option<Predicate>): seq<WorkOrder> {
    match p
    case None => SortNewestFirst(store)
    case Some(q) => SortNewestFirst(Filter(store, o => Evaluate(q, o)))
  }

  /** The fetch returns, newest first, each stored order the predicate accepts, as often as stored. */
  lemma FetchContents(store: seq<WorkOrder>, p: Option<Predicate>)
    ensures NewestFirst(Fetch(store, p))
    ensures forall o :: multiset(Fetch(store, p))[o]
                        == if p.None? || Evaluate(p.value, o) then multiset(store)[o] else 0
  {
    match p
    case None =>
      SortIsNewestFirst(store);
    case Some(q) =>
      SortIsNewestFirst(Filter(store, o => Evaluate(q, o)));
      FilterKeepsPassing(store, o => Evaluate(q, o));
  }

  /** The text test: lowercased customer, device or problem contains `lower`. */
  predicate MatchesText(o: WorkOrder, lower: string) {
    || Contains(Lowercased(o.customerName), lower)
    || Contains(Lowercased(o.deviceDescription), lower)
    || Contains(Lowercased(o.problemDescription), lower)
  }

  /**
   * The criteria an order must meet, stated field by field: the stored raw status (not the
   * getter), inclusive date bounds, and the search text unless it is absent or only spaces.
   * The text is lowercased but not trimmed.
   */
  predicate MeetsCriteria(f: WorkOrderFilter, o: WorkOrder) {
    && (f.status.Some? ==> o.statusRaw == RawValue(f.status.value))
    && (f.minDate.Some? ==> o.createdAt >= f.minDate.value)
    && (f.maxDate.Some? ==> o.createdAt <= f.maxDate.value)
    && (f.searchText.Some? && !IsBlank(f.searchText.value, Whitespaces)
        ==> MatchesText(o, Lowercased(f.searchText.value)))
  }

  /**
   * `execute(filter:in:)`. The result holds each stored order that meets every criterion, as
   * often as it is stored, and no other; it is sorted newest first and the store is untouched.
   */
  method Execute(ctx: ModelContext, filter: WorkOrderFilter) returns (results: seq<WorkOrder>)
    ensures forall o :: multiset(results)[o] == if MeetsCriteria(filter, o) then multiset(ctx.workOrders)[o] else 0
    ensures forall o :: o in results <==> o in ctx.workOrders && MeetsCriteria(filter, o)
    ensures NewestFirst(results)
  {
    var predicates: seq<Predicate> := [];
    if filter.status.Some? {
      predicates := predicates + [Leaf(StatusRawIs(RawValue(filter.status.value)))];
    }
    if filter.minDate.Some? {
      predicates := predicates + [Leaf(CreatedOnOrAfter(filter.minDate.value))];
    }
    if filter.maxDate.Some? {
      predicates := predicates + [Leaf(CreatedOnOrBefore(filter.maxDate.value))];
    }
    var finalPredicate := Combine(predicates);
    PredicatesMatchFilter(filter, predicates);
    results := Fetch(ctx.workOrders, finalPredicate);
    FetchContents(ctx.workOrders, finalPredicate);
    ghost var fetched := results;

    var applies := filter.searchText.Some? && !IsBlank(filter.searchText.value, Whitespaces);
    var matches: WorkOrder -> bool := o => true;
    if applies {
      var lower := Lowercased(filter.searchText.value);
      matches := o => MatchesText(o, lower);
      results := Filter(results, matches);
    }
    TextStageContents(ctx.workOrders, fetched, results, filter, applies, matches);
  }

  /** The predicates built from `f`, combined, accept exactly the orders meeting its structured part. */
  lemma PredicatesMatchFilter(f: WorkOrderFilter, ps: seq<Predicate>)
    requires ps == (if f.status.Some? then [Leaf(StatusRawIs(RawValue(f.status.value)))] else [])
                   + (if f.minDate.Some? then [Leaf(CreatedOnOrAfter(f.minDate.value))] else [])
                   + (if f.maxDate.Some? then [Leaf(CreatedOnOrBefore(f.maxDate.value))] else [])
    ensures forall o :: (Combine(ps).None? || Evaluate(Combine(ps).value, o)) <==> StructuredMatch(f, o)
  {
    var a := if f.status.Some? then [Leaf(StatusRawIs(RawValue(f.status.value)))] else [];
    var b := if f.minDate.Some? then [Leaf(CreatedOnOrAfter(f.minDate.value))] else [];
    var c := if f.maxDate.Some? then [Leaf(CreatedOnOrBefore(f.maxDate.value))] else [];
    forall o ensures (Combine(ps).None? || Evaluate(Combine(ps).value, o)) <==> StructuredMatch(f, o) {
      AllHoldAppend(a + b, c, o);
      AllHoldAppend(a, b, o);
      if ps != [] {
        CombineIsConjunction(ps, o);
      }
    }
  }

  lemma AllHoldAppend(a: seq<Predicate>, b: seq<Predicate>, o: WorkOrder)
    ensures AllHold(a + b, o) <==> AllHold(a, o) && AllHold(b, o)
  {
    if AllHold(a, o) && AllHold(b, o) {
      forall i | 0 <= i < |a + b| ensures Evaluate((a + b)[i], o) {
        if i >= |a| { assert (a + b)[i] == b[i - |a|]; }
      }
    }
    if AllHold(a + b, o) {
      forall i | 0 <= i < |a| ensures Evaluate(a[i], o) {
        assert (a + b)[i] == a[i];
      }
      forall i | 0 <= i < |b| ensures Evaluate(b[i], o) {
        assert (a + b)[|a| + i] == b[i];
      }
    }
  }

  /** The text stage keeps the orders that match the search, or all of them when it is skipped. */
  lemma TextStageContents(store: seq<WorkOrder>, fetched: seq<WorkOrder>, results: seq<WorkOrder>,
                          f: WorkOrderFilter, applies: bool, p: WorkOrder -> bool)
    requires NewestFirst(fetched)
    requires forall o :: multiset(fetched)[o] == if StructuredMatch(f, o) then multiset(store)[o] else 0
    requires applies == (f.searchText.Some? && !IsBlank(f.searchText.value, Whitespaces))
    requires applies ==> forall o :: p(o) == MatchesText(o, Lowercased(f.searchText.value))
    requires results == if applies then Filter(fetched, p) else fetched
    ensures forall o :: multiset(results)[o] == if MeetsCriteria(f, o) then multiset(store)[o] else 0
    ensures forall o :: o in results <==> o in store && MeetsCriteria(f, o)
    ensures NewestFirst(results)
  {
    if applies {
      FilterKeepsPassing(fetched, p);
      FilterKeepsOrder(fetched, p);
    }
    forall o ensures o in results <==> o in store && MeetsCriteria(f, o) {
      assert o in results <==> multiset(results)[o] > 0;
      assert o in store <==> multiset(store)[o] > 0;
    }
  }

  /** The structured part of the criteria: status, earliest and latest date. */
  predicate StructuredMatch(f: WorkOrderFilter, o: WorkOrder) {
    && (f.status.Some? ==> o.statusRaw == RawValue(f.status.value))
    && (f.minDate.Some? ==> o.createdAt >= f.minDate.value)
    && (f.maxDate.Some? ==> o.createdAt <= f.maxDate.value)
  }

  /** Without structured criteria and with no search, or one made only of spaces, every order qualifies. */
  lemma NoCriteriaKeepsAll(searchText: Option<string>, o: WorkOrder)
    requires searchText.None? || IsBlank(searchText.value, Whitespaces)
    ensures MeetsCriteria(WorkOrderFilter(searchText := searchText), o)
  {
  }

  /**
   * The status criterion compares the stored raw string: an order whose raw status is not
   * recognised reads as `received`, yet a filter on `received` leaves it out.
   */
  lemma StatusCriterionIsRaw(o: WorkOrder)
    requires o.statusRaw == "recibido"
    ensures Status(o) == Received
    ensures !MeetsCriteria(WorkOrderFilter(status := Some(Received)), o)
  {
    assert o.statusRaw[3] != RawValue(Received)[3];
  }
}
