/** The flaky-history store: a bounded window of outcomes per test, and the
    judgement made of it. */
module FlakyHistory {
  import opened Options

  const HISTORY_WINDOW := 30

  // ---- The window ----

  /** Python's `s[i:]`. */
  function SliceFrom(s: seq<bool>, i: int): seq<bool> {
    if i >= |s| then []
    else if i >= 0 then s[i..]
    else if |s| + i >= 0 then s[|s| + i..]
    else s
  }

  function LastN(s: seq<bool>, n: nat): seq<bool> {
    if |s| <= n then s else s[|s| - n..]
  }

  /** `outcomes[-window:]` */
  function Kept(outcomes: seq<bool>, window: int): seq<bool> {
    SliceFrom(outcomes, -window)
  }

  /** One entry of the store file; anything that is no object counts as empty. */
  datatype Entry = Outcomes(outcomes: seq<bool>) | Malformed

  type Data = map<string, Entry>

  /** What is on record for a test. */
  function History(data: Data, id: string): seq<bool> {
    if id in data && data[id].Outcomes? then data[id].outcomes else []
  }

  function Recorded(data: Data, id: string, passed: bool, window: int): Data {
    data[id := Outcomes(Kept(History(data, id) + [passed], window))]
  }

  /** The store file; None when it is missing or unreadable. */
  class Store {
    var file: Option<Data>

    function Contents(): Data
      reads this
    {
      if file.Some? then file.value else map[]
    }

    method LoadHistory(id: string) returns (outcomes: seq<bool>)
      ensures outcomes == History(Contents(), id)
    {
      var data := if file.Some? then file.value else map[];
      if id in data && data[id].Outcomes? {
        outcomes := data[id].outcomes;
      } else {
        outcomes := [];
      }
    }

    method RecordOutcome(id: string, passed: bool, window: int) returns (outcomes: seq<bool>)
      modifies this
      ensures Contents() == Recorded(old(Contents()), id, passed, window)
      ensures outcomes == History(Contents(), id)
    {
      var prior := LoadHistory(id);
      outcomes := prior + [passed];
      outcomes := Kept(outcomes, window);
      var data := if file.Some? then file.value else map[];
      file := Some(data[id := Outcomes(outcomes)]);
    }
  }

  /** The window bounds what is kept exactly when it is at least one: a window of
      zero keeps everything, a negative one drops from the front. */
  lemma WindowBoundsIff(window: int)
    ensures (forall s: seq<bool> :: |Kept(s, window)| <= window) <==> window >= 1
    ensures window == 0 ==> forall s: seq<bool> :: Kept(s, window) == s
    ensures window < 0 ==> forall s: seq<bool> :: |s| >= -window ==> Kept(s, window) == s[-window..]
  {
    assert |Kept([true], 0)| == 1;
    assert |Kept([true], window)| >= 0;
  }

  lemma KeptIsLast(s: seq<bool>, window: nat)
    requires window >= 1
    ensures Kept(s, window) == LastN(s, window)
  {
  }

  // ---- A stream of outcomes ----

  datatype Event = Event(id: string, passed: bool)

  function RecordedAll(data: Data, events: seq<Event>, window: int): Data {
    if events == [] then data
    else
      var e := events[|events| - 1];
      Recorded(RecordedAll(data, events[..|events| - 1], window), e.id, e.passed, window)
  }

  /** The outcomes of one test, in order. */
  function Of(events: seq<Event>, id: string): seq<bool> {
    if events == [] then []
    else
      var e := events[|events| - 1];
      Of(events[..|events| - 1], id) + if e.id == id then [e.passed] else []
  }

  lemma LastOfLast(s: seq<bool>, x: bool, n: nat)
    requires n >= 1
    ensures LastN(LastN(s, n) + [x], n) == LastN(s + [x], n)
  {
  }

  /** An outcome of one test leaves the history of every other as it is. */
  lemma OtherUntouched(data: Data, e: Event, window: int, id: string)
    requires e.id != id
    ensures History(Recorded(data, e.id, e.passed, window), id) == History(data, id)
  {
  }

  /** What is kept of a history and what came after it. */
  function LastOfBoth(before: seq<bool>, since: seq<bool>, window: nat): seq<bool> {
    if since == [] then before else LastN(before + since, window)
  }

  lemma KeepsOne(before: seq<bool>, since: seq<bool>, x: bool, window: nat)
    requires window >= 1
    ensures Kept(LastOfBoth(before, since, window) + [x], window) == LastOfBoth(before, since + [x], window)
  {
    assert before + (since + [x]) == before + since + [x];
    if since == [] {
      assert before + since == before;
      KeptIsLast(before + [x], window);
    } else {
      KeptIsLast(LastN(before + since, window) + [x], window);
      LastOfLast(before + since, x, window);
    }
  }

  lemma SameStep(was: Data, e: Event, window: nat, before: seq<bool>, since: seq<bool>)
    requires window >= 1 && History(was, e.id) == LastOfBoth(before, since, window)
    ensures History(Recorded(was, e.id, e.passed, window), e.id) == LastOfBoth(before, since + [e.passed], window)
  {
    KeepsOne(before, since, e.passed, window);
  }

  /** The store after `events` remembers of test `id` what it should. */
  ghost predicate Remembers(data: Data, events: seq<Event>, window: nat, id: string) {
    History(RecordedAll(data, events, window), id) == LastOfBoth(History(data, id), Of(events, id), window)
  }

  lemma RemembersOne(data: Data, front: seq<Event>, e: Event, window: nat, id: string)
    requires window >= 1 && Remembers(data, front, window, id)
    ensures Remembers(data, front + [e], window, id)
  {
    var was := RecordedAll(data, front, window);
    assert (front + [e])[..|front|] == front;
    assert RecordedAll(data, front + [e], window) == Recorded(was, e.id, e.passed, window);
    if e.id == id {
      assert Of(front + [e], id) == Of(front, id) + [e.passed];
      SameStep(was, e, window, History(data, id), Of(front, id));
    } else {
      assert Of(front + [e], id) == Of(front, id);
      OtherUntouched(was, e, window, id);
    }
  }

  /** Whatever the stream, the store keeps for every test the last `window` of all
      its outcomes, and nothing of another test's; a test without an event is
      left alone. */
  lemma {:induction false} StoreKeepsLast(data: Data, events: seq<Event>, window: nat, id: string)
    requires window >= 1
    ensures History(RecordedAll(data, events, window), id) == LastOfBoth(History(data, id), Of(events, id), window)
  {
    if events != [] {
      var n := |events| - 1;
      StoreKeepsLast(data, events[..n], window, id);
      RemembersOne(data, events[..n], events[n], window, id);
      assert events[..n] + [events[n]] == events;
    }
  }

  // ---- The judgement ----

  datatype FlakyClass = New | Stable | Flaky

  function Flips(outcomes: seq<bool>): nat {
    if |outcomes| < 2 then 0
    else (if outcomes[0] != outcomes[1] then 1 else 0) + Flips(outcomes[1..])
  }

  predicate FlipAt(outcomes: seq<bool>, i: nat) {
    i + 1 < |outcomes| && outcomes[i] != outcomes[i + 1]
  }

  /** Where an outcome is followed by the other one. */
  ghost function FlipsAt(outcomes: seq<bool>): set<nat> {
    set i: nat | i < |outcomes| && FlipAt(outcomes, i)
  }

  lemma {:induction false} FlipsSnoc(outcomes: seq<bool>)
    requires |outcomes| >= 2
    ensures var n := |outcomes| - 1;
      Flips(outcomes) == Flips(outcomes[..n]) + if outcomes[n - 1] != outcomes[n] then 1 else 0
  {
    var n := |outcomes| - 1;
    if n > 1 {
      assert outcomes[1..][..n - 1] == outcomes[..n][1..];
      FlipsSnoc(outcomes[1..]);
    } else {
      assert Flips(outcomes[1..]) == 0 && Flips(outcomes[..n]) == 0;
    }
  }

  /** The flips are counted, each once. */
  lemma {:induction false} FlipsCounted(outcomes: seq<bool>)
    ensures Flips(outcomes) == |FlipsAt(outcomes)|
  {
    if |outcomes| < 2 {
      assert FlipsAt(outcomes) == {};
    } else {
      var n := |outcomes| - 1;
      var front := outcomes[..n];
      FlipsSnoc(outcomes);
      FlipsCounted(front);
      assert forall i: nat :: i < n - 1 ==> (FlipAt(outcomes, i) <==> FlipAt(front, i));
      assert FlipsAt(outcomes) == FlipsAt(front) + if FlipAt(outcomes, n - 1) then {n - 1} else {};
    }
  }

  method CountFlips(outcomes: seq<bool>) returns (flips: nat)
    ensures flips == Flips(outcomes) == |FlipsAt(outcomes)|
  {
    FlipsCounted(outcomes);
    flips := 0;
    var i := 0;
    while i + 1 < |outcomes|
      invariant 0 <= i <= |outcomes|
      invariant flips + Flips(outcomes[i..]) == Flips(outcomes)
    {
      assert outcomes[i..][1..] == outcomes[i + 1..];
      if outcomes[i] != outcomes[i + 1] {
        flips := flips + 1;
      }
      i := i + 1;
    }
  }

  function FlipRate(outcomes: seq<bool>): real {
    if |outcomes| < 2 then 0.0 else Flips(outcomes) as real / (|outcomes| - 1) as real
  }

  function Classification(outcomes: seq<bool>): FlakyClass {
    if |outcomes| < 2 then New
    else if FlipRate(outcomes) >= 0.25 then Flaky
    else Stable
  }

  lemma {:induction false} FlipsBound(outcomes: seq<bool>)
    ensures outcomes != [] ==> Flips(outcomes) <= |outcomes| - 1
  {
    if |outcomes| >= 2 {
      FlipsBound(outcomes[1..]);
    }
  }

  lemma RateAtLeast(flips: nat, steps: nat)
    requires steps >= 1
    ensures flips as real / steps as real >= 0.25 <==> 4 * flips >= steps
  {
    var q := flips as real / steps as real;
    assert q * steps as real == flips as real;
    if q >= 0.25 {
      assert q * steps as real >= 0.25 * steps as real;
    } else {
      assert q * steps as real < 0.25 * steps as real;
    }
  }

  lemma RateAtMostOne(flips: nat, steps: nat)
    requires flips <= steps && steps >= 1
    ensures 0.0 <= flips as real / steps as real <= 1.0
  {
    var q := flips as real / steps as real;
    assert q * steps as real == flips as real;
    assert q > 1.0 ==> q * steps as real > 1.0 * steps as real;
    assert q < 0.0 ==> q * steps as real < 0.0;
  }

  /** The judgement in whole numbers: flaky means at least one flip in four steps;
      and the rate is a fraction of one. */
  lemma FlakyIff(outcomes: seq<bool>)
    ensures Classification(outcomes) == Flaky <==> |outcomes| >= 2 && 4 * Flips(outcomes) >= |outcomes| - 1
    ensures Classification(outcomes) == New <==> |outcomes| < 2
    ensures 0.0 <= FlipRate(outcomes) <= 1.0
  {
    if |outcomes| >= 2 {
      FlipsBound(outcomes);
      RateAtLeast(Flips(outcomes), |outcomes| - 1);
      RateAtMostOne(Flips(outcomes), |outcomes| - 1);
    }
  }

  predicate AllAre(outcomes: seq<bool>, b: bool) {
    forall i :: 0 <= i < |outcomes| ==> outcomes[i] == b
  }

  lemma {:induction false} NoFlips(outcomes: seq<bool>, b: bool)
    requires AllAre(outcomes, b)
    ensures Flips(outcomes) == 0
  {
    if |outcomes| >= 2 {
      NoFlips(outcomes[1..], b);
    }
  }

  /** As many equal outcomes in a row as the window is long, and the test is stable
      whatever came before and whatever other tests did in between; with a
      window of one it counts as new. */
  lemma EqualRunIsStable(data: Data, events: seq<Event>, window: nat, id: string, b: bool)
    requires window >= 1 && |Of(events, id)| >= window && AllAre(Of(events, id), b)
    ensures var h := History(RecordedAll(data, events, window), id);
      |h| == window && AllAre(h, b) && Classification(h) == if window == 1 then New else Stable
  {
    StoreKeepsLast(data, events, window, id);
    var h := History(RecordedAll(data, events, window), id);
    NoFlips(h, b);
    FlakyIff(h);
  }

  /** So thirty equal outcomes forgive any past. */
  lemma ThirtyForgive(data: Data, events: seq<Event>, id: string, b: bool)
    requires |Of(events, id)| >= HISTORY_WINDOW && AllAre(Of(events, id), b)
    ensures Classification(History(RecordedAll(data, events, HISTORY_WINDOW), id)) == Stable
  {
    EqualRunIsStable(data, events, HISTORY_WINDOW, id, b);
  }
}
