/** The event clauses of the run-ledger forensics: greedy ordered matching combined with
    exactly-once counts. */
module Forensics {
  import opened Basics

  const REQUIRED_EVENTS: seq<string> := [
    "run_created", "policy_decision", "confirmation_required",
    "approval_consumed", "confirmation_approved", "policy_decision",
    "step_started", "step_succeeded", "run_completed"]

  const FORBIDDEN_EVENTS: seq<string> := [
    "confirmation_denied", "confirmation_expired", "run_cancelled", "step_completed_after_cancel", "step_failed"]

  const ONCE_EVENTS: seq<string> := [
    "approval_consumed", "confirmation_approved", "step_started", "step_succeeded", "run_completed"]

  /** `at` lists positions of `required` in `values`, in order. */
  predicate Embeds(at: seq<nat>, required: seq<string>, values: seq<string>) {
    && |at| == |required|
    && (forall i | 0 <= i < |at| :: at[i] < |values| && values[at[i]] == required[i])
    && forall i, j | 0 <= i < j < |at| :: at[i] < at[j]
  }

  ghost predicate Subsequence(required: seq<string>, values: seq<string>) {
    exists at :: Embeds(at, required, values)
  }

  /** `values.index(item, start)`, or -1 where Python raises. */
  method IndexFrom(values: seq<string>, item: string, start: nat) returns (r: int)
    requires start <= |values|
    ensures r == -1 || start <= r < |values|
    ensures r >= 0 ==> values[r] == item
    ensures forall i | start <= i < (if r == -1 then |values| else r) :: values[i] != item
  {
    for i := start to |values|
      invariant forall j | start <= j < i :: values[j] != item
    {
      if values[i] == item { return i; }
    }
    return -1;
  }

  /** Every embedding of `done` reaches at least to `cursor`. */
  ghost predicate Reaches(done: seq<string>, values: seq<string>, cursor: nat) {
    forall at | Embeds(at, done, values) && at != [] :: at[|at| - 1] + 1 >= cursor
  }

  lemma EmbeddingOfPrefix(at: seq<nat>, required: seq<string>, values: seq<string>, n: nat)
    requires Embeds(at, required, values) && n <= |required|
    ensures Embeds(at[..n], required[..n], values)
  {
  }

  /** The greedy choice is never worse than any other embedding. */
  lemma GreedyStep(required: seq<string>, values: seq<string>, n: nat, cursor: nat, at: seq<nat>)
    requires n < |required| && Reaches(required[..n], values, cursor)
    requires n == 0 ==> cursor == 0
    requires Embeds(at, required[..n + 1], values)
    ensures at[n] >= cursor
  {
    if n > 0 {
      EmbeddingOfPrefix(at, required[..n + 1], values, n);
      assert required[..n + 1][..n] == required[..n];
      assert at[..n][n - 1] == at[n - 1];
    }
  }

  /** `_ordered_contains` is sound and complete for being a subsequence. */
  method OrderedContains(values: seq<string>, required: seq<string>) returns (ok: bool)
    ensures ok <==> Subsequence(required, values)
  {
    var cursor := 0;
    ghost var at: seq<nat> := [];
    for n := 0 to |required|
      invariant cursor <= |values| && (n == 0 ==> cursor == 0)
      invariant Embeds(at, required[..n], values) && (n > 0 ==> at[n - 1] + 1 == cursor)
      invariant Reaches(required[..n], values, cursor)
    {
      var item := required[n];
      var index := IndexFrom(values, item, cursor);
      assert required[..n + 1][n] == item;
      forall other | Embeds(other, required[..n + 1], values) ensures index >= 0 && other[n] >= index {
        GreedyStep(required, values, n, cursor, other);
        assert values[other[n]] == item;
      }
      if index < 0 {
        if Subsequence(required, values) {
          var whole :| Embeds(whole, required, values);
          EmbeddingOfPrefix(whole, required, values, n + 1);
        }
        return false;
      }
      at := at + [index];
      assert required[..n + 1] == required[..n] + [item];
      cursor := index + 1;
    }
    assert required[..|required|] == required;
    return true;
  }

  // ----- the event clauses of a successful run -----

  function Count(values: seq<string>, x: string): nat {
    multiset(values)[x]
  }

  ghost predicate EventsOk(kinds: seq<string>) {
    && Subsequence(REQUIRED_EVENTS, kinds)
    && (forall x | x in FORBIDDEN_EVENTS :: x !in kinds)
    && forall x | x in ONCE_EVENTS :: Count(kinds, x) == 1
  }

  /** The event part of `_validate_success_run`: the errors it appends. */
  method EventErrors(kinds: seq<string>) returns (errors: seq<string>)
    ensures errors == [] <==> EventsOk(kinds)
  {
    errors := [];
    var ordered := OrderedContains(kinds, REQUIRED_EVENTS);
    if !ordered { errors := errors + ["required event chain"]; }
    var forbidden, repeated := FORBIDDEN_EVENTS, ONCE_EVENTS;
    for i := 0 to |forbidden|
      invariant errors == [] <==> ordered && forall j | 0 <= j < i :: forbidden[j] !in kinds
    {
      if forbidden[i] in kinds { errors := errors + [forbidden[i]]; }
    }
    ghost var before := errors;
    for i := 0 to |repeated|
      invariant errors == [] <==> before == [] && forall j | 0 <= j < i :: Count(kinds, repeated[j]) == 1
    {
      if Count(kinds, repeated[i]) != 1 { errors := errors + [repeated[i]]; }
    }
  }

  /** The positions of `x`, in order. */
  function Positions(values: seq<string>, x: string): seq<nat> {
    if values == [] then []
    else Positions(values[..|values| - 1], x) + if values[|values| - 1] == x then [|values| - 1] else []
  }

  /** A ledger event: its kind, and whether its payload is an object. */
  datatype LedgerEvent = LedgerEvent(kind: string, hasObject: bool)

  function Kinds(events: seq<LedgerEvent>): seq<string> {
    seq(|events|, i requires 0 <= i < |events| => events[i].kind)
  }

  /** `_event_one`: where the only event of a kind is, if there is only one and it has a
      payload. */
  function EventOne(events: seq<LedgerEvent>, x: string): Option<int> {
    var matches := Positions(Kinds(events), x);
    if |matches| != 1 || matches[0] >= |events| || !events[matches[0]].hasObject then None else Some(matches[0])
  }

  lemma {:induction false} PositionsMeaning(values: seq<string>, x: string)
    ensures |Positions(values, x)| == Count(values, x)
    ensures forall p | p in Positions(values, x) :: p < |values| && values[p] == x
  {
    if values != [] {
      var init, last := values[..|values| - 1], values[|values| - 1];
      assert values == init + [last];
      PositionsMeaning(init, x);
    }
  }

  /** An event is found exactly when its kind occurs once, with a payload; so after an
      accepted run only a missing payload can hide one of the five. */
  lemma EventOneExactly(events: seq<LedgerEvent>, x: string, p: nat)
    ensures EventOne(events, x) == Some(p) <==>
            p < |events| && events[p].kind == x && events[p].hasObject && Count(Kinds(events), x) == 1
    ensures EventsOk(Kinds(events)) && x in ONCE_EVENTS ==>
              exists q | 0 <= q < |events| :: events[q].kind == x && (EventOne(events, x) == Some(q) <==> events[q].hasObject)
  {
    var kinds := Kinds(events);
    var matches := Positions(kinds, x);
    PositionsMeaning(kinds, x);
    if Count(kinds, x) == 1 {
      var q := matches[0];
      assert q in matches;
      assert events[q].kind == kinds[q] == x;
      if p < |events| && events[p].kind == x { OnceIsUnique(kinds, p, q); }
    }
  }

  lemma TwiceCounts(values: seq<string>, i: nat, j: nat)
    requires i < j < |values| && values[i] == values[j]
    ensures Count(values, values[i]) >= 2
  {
    assert values == values[..i] + [values[i]] + values[i + 1..j] + [values[j]] + values[j + 1..];
  }

  lemma OnceIsUnique(values: seq<string>, i: nat, j: nat)
    requires i < |values| && j < |values| && values[i] == values[j]
    requires Count(values, values[i]) == 1
    ensures i == j
  {
    if i != j { TwiceCounts(values, if i < j then i else j, if i < j then j else i); }
  }

  /** Where the exactly-once events stand in the required chain. */
  const ONCE_PLACES: seq<nat> := [3, 4, 6, 7, 8]

  lemma OnlyPlace(kinds: seq<string>, at: seq<nat>, i: nat)
    requires EventsOk(kinds) && Embeds(at, REQUIRED_EVENTS, kinds) && i < 5
    ensures kinds[at[ONCE_PLACES[i]]] == ONCE_EVENTS[i]
    ensures forall a | 0 <= a < |kinds| && kinds[a] == ONCE_EVENTS[i] :: a == at[ONCE_PLACES[i]]
  {
    var p := at[ONCE_PLACES[i]];
    assert kinds[p] == REQUIRED_EVENTS[ONCE_PLACES[i]] == ONCE_EVENTS[i];
    assert ONCE_EVENTS[i] in ONCE_EVENTS;
    forall a | 0 <= a < |kinds| && kinds[a] == ONCE_EVENTS[i] ensures a == p { OnceIsUnique(kinds, a, p); }
  }

  lemma PlacesAscend(kinds: seq<string>, at: seq<nat>)
    requires Embeds(at, REQUIRED_EVENTS, kinds)
    ensures forall i, j | 0 <= i < j < 5 :: at[ONCE_PLACES[i]] < at[ONCE_PLACES[j]] < |kinds|
    ensures at[4] < at[5] < at[6] < |kinds| && kinds[at[5]] == "policy_decision"
    ensures ONCE_PLACES[1] == 4 && ONCE_PLACES[2] == 6
  {
    assert REQUIRED_EVENTS[5] == "policy_decision";
  }

  lemma OpeningPlaces(kinds: seq<string>, at: seq<nat>)
    requires Embeds(at, REQUIRED_EVENTS, kinds)
    ensures at[0] < at[1] < at[2] < at[3] < |kinds|
    ensures kinds[at[0]] == "run_created" && kinds[at[1]] == "policy_decision" && kinds[at[2]] == "confirmation_required"
    ensures ONCE_PLACES[0] == 3 && ONCE_EVENTS[0] == "approval_consumed"
  {
    var r := REQUIRED_EVENTS;
    assert r[0] == "run_created" && r[1] == "policy_decision" && r[2] == "confirmation_required";
  }

  lemma NothingForbidden(kinds: seq<string>)
    requires EventsOk(kinds)
    ensures "confirmation_denied" !in kinds && "confirmation_expired" !in kinds && "run_cancelled" !in kinds
    ensures "step_completed_after_cancel" !in kinds && "step_failed" !in kinds
  {
    var f := FORBIDDEN_EVENTS;
    assert f[0] == "confirmation_denied" && f[1] == "confirmation_expired" && f[2] == "run_cancelled";
    assert f[3] == "step_completed_after_cancel" && f[4] == "step_failed";
  }

  /** A run accepted without errors has each of the five events exactly once, in their
      order, with a policy decision between the approval and the start of the step. */
  lemma AcceptedRunIsOrdered(kinds: seq<string>)
    requires EventsOk(kinds)
    ensures ONCE_EVENTS == ["approval_consumed", "confirmation_approved", "step_started", "step_succeeded", "run_completed"]
    ensures forall i | 0 <= i < 5 :: ONCE_EVENTS[i] in kinds
    ensures "confirmation_denied" !in kinds && "confirmation_expired" !in kinds && "run_cancelled" !in kinds
    ensures "step_completed_after_cancel" !in kinds && "step_failed" !in kinds
    ensures exists a, b, c | 0 <= a < b < c < |kinds| ::
              kinds[a] == "run_created" && kinds[b] == "policy_decision" && kinds[c] == "confirmation_required"
              && forall d | 0 <= d < |kinds| && kinds[d] == "approval_consumed" :: c < d
    ensures forall i, j, a, b | 0 <= i < j < 5 && 0 <= a < |kinds| && 0 <= b < |kinds|
              && kinds[a] == ONCE_EVENTS[i] && kinds[b] == ONCE_EVENTS[j] :: a < b
    ensures exists p | 0 <= p < |kinds| :: kinds[p] == "policy_decision" &&
              forall a, b | 0 <= a < |kinds| && 0 <= b < |kinds| && kinds[a] == ONCE_EVENTS[1] && kinds[b] == ONCE_EVENTS[2] ::
                a < p < b
  {
    var at :| Embeds(at, REQUIRED_EVENTS, kinds);
    forall i | 0 <= i < 5
      ensures kinds[at[ONCE_PLACES[i]]] == ONCE_EVENTS[i]
      ensures forall a | 0 <= a < |kinds| && kinds[a] == ONCE_EVENTS[i] :: a == at[ONCE_PLACES[i]]
    {
      OnlyPlace(kinds, at, i);
    }
    NothingForbidden(kinds);
    OpeningPlaces(kinds, at);
    assert kinds[at[0]] == "run_created" && kinds[at[1]] == "policy_decision" && kinds[at[2]] == "confirmation_required";
    hide Embeds, EventsOk;
    PlacesAscend(kinds, at);
    var p := at[5];
    assert kinds[p] == "policy_decision" && at[4] < p < at[6];
  }
}
