/** One record of each WSPR transmission (transports/wsprnet.py,
    `dedup_records_for_wsprnet`): the best heard, at its own place. */
module WsprnetDedup {
  import opened Cursors
  import S = Sink

  /** A level as Python compares it: nothing is above a NaN, nor a NaN above anything.
      Other numbers are named by their place in float order. */
  datatype Level = NotANumber | Level(db: int)

  /** A record; a text column that is absent reads empty. `hertz`: none when absent or
      zero. A frequency is its quantum of 0.0001 MHz, none when it is no number. */
  datatype Spot = Spot(txSign: string, txCall: string, callsign: string, megahertz: Option<Option<int>>,
                       hertz: Option<Option<int>>, minute: Option<int>, snr: Option<Level>, snrDb: Option<Level>)

  datatype Key = Key(minute: int, call: string, freq: int)

  function CallOf(r: Spot): string {
    S.Trim(if r.txSign != [] then r.txSign else if r.txCall != [] then r.txCall else r.callsign, S.PY_SPACE)
  }

  function FreqOf(r: Spot): Option<int> {
    if r.megahertz.Some? then r.megahertz.value else if r.hertz.Some? then r.hertz.value else None
  }

  /** None: the record passes through. */
  function KeyOf(r: Spot): Option<Key> {
    var call, freq := CallOf(r), FreqOf(r);
    if call == [] || freq.None? || r.minute.None? then None else Some(Key(r.minute.value, call, freq.value))
  }

  function SnrOf(r: Spot): Level {
    if r.snr.Some? then r.snr.value else if r.snrDb.Some? then r.snrDb.value else Level(0)
  }

  predicate Above(a: Level, b: Level) {
    a.Level? && b.Level? && a.db > b.db
  }

  // ---- the loop -------------------------------------------------------------------------

  /** The place the loop holds for key `k` after `n` records. */
  function BestAt(recs: seq<Spot>, n: nat, k: Key): (b: Option<nat>)
    requires n <= |recs|
    ensures b.Some? ==> b.value < n && KeyOf(recs[b.value]) == Some(k)
  {
    if n == 0 then None
    else
      var b := BestAt(recs, n - 1, k);
      if KeyOf(recs[n - 1]) == Some(k) && (b.None? || Above(SnrOf(recs[n - 1]), SnrOf(recs[b.value]))) then Some(n - 1) else b
  }

  /** Whether the record at `i` is kept. */
  predicate Survives(recs: seq<Spot>, i: nat)
    requires i < |recs|
  {
    var k := KeyOf(recs[i]);
    k.None? || BestAt(recs, |recs|, k.value) == Some(i)
  }

  predicate Increasing(ps: seq<nat>) {
    forall i, j :: 0 <= i < j < |ps| ==> ps[i] < ps[j]
  }

  /** The kept places among the first `n`, in order. */
  function Places(recs: seq<Spot>, n: nat): (ps: seq<nat>)
    requires n <= |recs|
    ensures Increasing(ps) && forall p :: p in ps <==> 0 <= p < n && Survives(recs, p)
  {
    if n == 0 then []
    else
      var rest := Places(recs, n - 1);
      assert forall i :: 0 <= i < |rest| ==> rest[i] in rest;
      rest + if Survives(recs, n - 1) then [n - 1] else []
  }

  function Pick(recs: seq<Spot>, ps: seq<nat>): (out: seq<Spot>)
    requires forall i :: 0 <= i < |ps| ==> ps[i] < |recs|
    ensures |out| == |ps| && forall i :: 0 <= i < |ps| ==> out[i] == recs[ps[i]]
  {
    seq(|ps|, i requires 0 <= i < |ps| => recs[ps[i]])
  }

  function Deduped(recs: seq<Spot>): (out: seq<Spot>) {
    var ps := Places(recs, |recs|);
    assert forall i :: 0 <= i < |ps| ==> ps[i] in ps;
    Pick(recs, ps)
  }

  // ---- what it keeps ------------------------------------------------------------------------

  /** No record of its key comes before it. */
  ghost predicate Leads(recs: seq<Spot>, i: nat)
    requires i < |recs|
  {
    forall h :: 0 <= h < i ==> KeyOf(recs[h]) != KeyOf(recs[i])
  }

  /** The earliest record of its key's greatest level among the first `n`: every earlier
      one is below it, no later one above. A NaN that leads its key stays; one that
      follows neither wins nor stands in the way. */
  ghost predicate EarliestBest(recs: seq<Spot>, n: nat, i: nat)
    requires i < n <= |recs|
  {
    && (forall j :: 0 <= j < i && KeyOf(recs[j]) == KeyOf(recs[i]) ==> EarlierLoses(recs, i, j))
    && (forall j :: i < j < n && KeyOf(recs[j]) == KeyOf(recs[i]) ==> !Above(SnrOf(recs[j]), SnrOf(recs[i])))
  }

  ghost predicate EarlierLoses(recs: seq<Spot>, i: nat, j: nat)
    requires i < |recs| && j < |recs|
  {
    SnrOf(recs[i]).Level? && (Above(SnrOf(recs[i]), SnrOf(recs[j])) || (SnrOf(recs[j]).NotANumber? && !Leads(recs, j)))
  }

  lemma {:induction false} BestIsEarliest(recs: seq<Spot>, n: nat, k: Key)
    requires n <= |recs|
    ensures var b := BestAt(recs, n, k);
      && (b.None? <==> forall j :: 0 <= j < n ==> KeyOf(recs[j]) != Some(k))
      && (b.Some? ==> EarliestBest(recs, n, b.value))
  {
    hide KeyOf, SnrOf;
    if n > 0 {
      BestIsEarliest(recs, n - 1, k);
      var b := BestAt(recs, n - 1, k);
      if KeyOf(recs[n - 1]) == Some(k) && b.Some? && Above(SnrOf(recs[n - 1]), SnrOf(recs[b.value])) {
        forall j | 0 <= j < n - 1 && KeyOf(recs[j]) == Some(k) ensures EarlierLoses(recs, n - 1, j) {
          Overtaken(recs, n - 1, b.value, j);
        }
      }
    }
  }

  /** Whoever beats the best so far beats all before it. */
  lemma Overtaken(recs: seq<Spot>, n: nat, b: nat, j: nat)
    requires b < n < |recs| && j < n && EarliestBest(recs, n, b) && KeyOf(recs[j]) == KeyOf(recs[b])
    requires Above(SnrOf(recs[n]), SnrOf(recs[b]))
    ensures EarlierLoses(recs, n, j)
  {
    hide KeyOf, SnrOf;
    if j < b {
      assert EarlierLoses(recs, b, j);
    } else if b < j {
      assert !Above(SnrOf(recs[j]), SnrOf(recs[b]));
      assert KeyOf(recs[b]) == KeyOf(recs[j]);
    }
  }

  /** Two such records of one key are one. */
  lemma EarliestIsOne(recs: seq<Spot>, i: nat, j: nat)
    requires i < |recs| && j < |recs| && KeyOf(recs[i]) == KeyOf(recs[j])
    requires EarliestBest(recs, |recs|, i) && EarliestBest(recs, |recs|, j)
    ensures i == j
  {
    NaNLeads(recs, i);
    NaNLeads(recs, j);
    hide KeyOf, SnrOf, Leads;
  }

  lemma NaNLeads(recs: seq<Spot>, i: nat)
    requires i < |recs| && EarliestBest(recs, |recs|, i)
    ensures SnrOf(recs[i]).NotANumber? ==> Leads(recs, i)
  {
    hide KeyOf, SnrOf;
    if !Leads(recs, i) {
      var h :| 0 <= h < i && KeyOf(recs[h]) == KeyOf(recs[i]);
      assert EarlierLoses(recs, i, h);
    }
  }

  /** A record is kept exactly when it passes through or is the earliest of its key's
      greatest level. */
  lemma KeptIff(recs: seq<Spot>, i: nat)
    requires i < |recs|
    ensures Survives(recs, i) <==> KeyOf(recs[i]).None? || EarliestBest(recs, |recs|, i)
  {
    var k := KeyOf(recs[i]);
    if k.Some? {
      BestIsEarliest(recs, |recs|, k.value);
      var b := BestAt(recs, |recs|, k.value);
      hide KeyOf, SnrOf, EarliestBest;
      if EarliestBest(recs, |recs|, i) { EarliestIsOne(recs, i, b.value); }
    }
  }

  /** With readable levels, that is the greatest level, and the first that has it. */
  lemma KeptIsGreatest(recs: seq<Spot>, i: nat, j: nat)
    requires i < |recs| && j < |recs| && KeyOf(recs[i]) == KeyOf(recs[j]) && KeyOf(recs[i]).Some? && Survives(recs, i)
    requires SnrOf(recs[i]).Level? && SnrOf(recs[j]).Level?
    ensures SnrOf(recs[j]).db <= SnrOf(recs[i]).db && (SnrOf(recs[j]) == SnrOf(recs[i]) ==> i <= j)
  {
    KeptIff(recs, i);
    hide KeyOf, SnrOf, Survives;
    if j < i { assert EarlierLoses(recs, i, j); }
    if i < j { assert !Above(SnrOf(recs[j]), SnrOf(recs[i])); }
  }

  /** The output holds the kept records in input order, each key once. */
  lemma {:induction false} OutputKeeps(recs: seq<Spot>, a: nat, b: nat)
    requires a < b < |Deduped(recs)|
    ensures var ps := Places(recs, |recs|);
      ps[a] < ps[b] < |recs| && Deduped(recs)[a] == recs[ps[a]] && Deduped(recs)[b] == recs[ps[b]]
    ensures KeyOf(Deduped(recs)[a]).None? || KeyOf(Deduped(recs)[a]) != KeyOf(Deduped(recs)[b])
  {
    hide KeyOf, SnrOf;
    var ps := Places(recs, |recs|);
    assert ps[a] in ps && ps[b] in ps;
    assert Survives(recs, ps[a]) && Survives(recs, ps[b]);
  }

  /** Every key of the input has its one record in the output. */
  lemma EveryKeyIsKept(recs: seq<Spot>, j: nat) returns (a: nat)
    requires j < |recs|
    ensures a < |Deduped(recs)| && KeyOf(Deduped(recs)[a]) == KeyOf(recs[j])
    ensures KeyOf(recs[j]).None? ==> Places(recs, |recs|)[a] == j
  {
    var ps := Places(recs, |recs|);
    var k := KeyOf(recs[j]);
    var i := j;
    if k.Some? {
      BestIsEarliest(recs, |recs|, k.value);
      i := BestAt(recs, |recs|, k.value).value;
    }
    assert Survives(recs, i);
    assert i in ps;
    a :| 0 <= a < |ps| && ps[a] == i;
  }

  /** Doing it again changes nothing. */
  lemma {:induction false} Idempotent(recs: seq<Spot>)
    ensures Deduped(Deduped(recs)) == Deduped(recs)
  {
    var out := Deduped(recs);
    forall i | 0 <= i < |out| ensures Survives(out, i) {
      AloneSurvives(recs, i);
    }
    hide Survives;
    AllPlaces(out, |out|);
  }

  lemma AloneSurvives(recs: seq<Spot>, i: nat)
    requires i < |Deduped(recs)|
    ensures Survives(Deduped(recs), i)
  {
    var out := Deduped(recs);
    hide Deduped, Above, SnrOf;
    if KeyOf(out[i]).Some? {
      forall j | 0 <= j < |out| && j != i ensures KeyOf(out[j]) != KeyOf(out[i]) {
        if j < i { OutputKeeps(recs, j, i); } else { OutputKeeps(recs, i, j); }
      }
      hide KeyOf;
      KeptIff(out, i);
    }
  }

  lemma {:induction false} AllPlaces(recs: seq<Spot>, n: nat)
    requires n <= |recs| && forall i :: 0 <= i < |recs| ==> Survives(recs, i)
    ensures |Places(recs, n)| == n && forall i :: 0 <= i < n ==> Places(recs, n)[i] == i
  {
    hide Survives, Increasing;
    if n > 0 {
      AllPlaces(recs, n - 1);
      assert Places(recs, n) == Places(recs, n - 1) + [n - 1];
    }
  }

  /** The docstring gives a key the place of its first record; the code gives it the
      winner's. The two agree exactly when no later record of the key is above the first. */
  lemma PlaceIsTheFirstsIff(recs: seq<Spot>, i: nat)
    requires i < |recs| && KeyOf(recs[i]).Some?
    requires forall j :: 0 <= j < i ==> KeyOf(recs[j]) != KeyOf(recs[i])
    ensures BestAt(recs, |recs|, KeyOf(recs[i]).value) == Some(i) <==>
            forall j :: i < j < |recs| && KeyOf(recs[j]) == KeyOf(recs[i]) ==> !Above(SnrOf(recs[j]), SnrOf(recs[i]))
  {
    KeptIff(recs, i);
    hide KeyOf, SnrOf, Above, BestAt;
  }

  /** One key whose first record is weaker than its second, another key's between them:
      the winner stands last. */
  lemma WinnerMovesBack(a: Spot, b: Spot, c: Spot)
    requires KeyOf(a).Some? && KeyOf(c) == KeyOf(a) && KeyOf(b).Some? && KeyOf(b) != KeyOf(a)
    requires SnrOf(a) == Level(-20) && SnrOf(c) == Level(-10)
    ensures Deduped([a, b, c]) == [b, c]
  {
    hide KeyOf, SnrOf, Survives, Deduped;
    var recs := [a, b, c];
    assert recs[0] == a && recs[1] == b && recs[2] == c;
    KeptIff(recs, 0);
    KeptIff(recs, 1);
    KeptIff(recs, 2);
    assert Above(SnrOf(recs[2]), SnrOf(recs[0]));
    LastTwoOfThree(recs);
  }

  lemma LastTwoOfThree(recs: seq<Spot>)
    requires |recs| == 3 && !Survives(recs, 0) && Survives(recs, 1) && Survives(recs, 2)
    ensures Deduped(recs) == [recs[1], recs[2]]
  {
    hide Survives, Increasing;
    assert Places(recs, 0) == [];
    assert Places(recs, 1) == [];
    assert Places(recs, 2) == [1];
    assert Places(recs, 3) == [1, 2];
  }

  function Heard(call: char, db: int): Spot {
    Spot([call], [], [], Some(Some(140956)), None, Some(0), Some(Level(db)), None)
  }

  lemma HeardKey(call: char, db: int)
    requires 'A' <= call <= 'Z'
    ensures KeyOf(Heard(call, db)) == Some(Key(0, [call], 140956)) && SnrOf(Heard(call, db)) == Level(db)
  {
    S.WordsAreNotSpace(call);
    S.TrimNothing([call], S.PY_SPACE);
    hide S.Trim, S.PY_SPACE;
  }

  /** A, B and then A again, better: B comes first. */
  lemma HeardTwice()
    ensures Deduped([Heard('A', -20), Heard('B', 0), Heard('A', -10)]) == [Heard('B', 0), Heard('A', -10)]
  {
    HeardKey('A', -20);
    HeardKey('B', 0);
    HeardKey('A', -10);
    assert ['A'][0] != ['B'][0];
    hide KeyOf, SnrOf, Deduped;
    WinnerMovesBack(Heard('A', -20), Heard('B', 0), Heard('A', -10));
  }

  // ---- the method --------------------------------------------------------------------------

  /** `sorted` by place, of places that all differ. */
  method SortPlaces(ps: seq<nat>) returns (sorted: seq<nat>)
    requires forall i, j :: 0 <= i < j < |ps| ==> ps[i] != ps[j]
    ensures Increasing(sorted) && forall p :: p in sorted <==> p in ps
  {
    sorted := [];
    for n := 0 to |ps|
      invariant Increasing(sorted) && forall p :: p in sorted <==> p in ps[..n]
    {
      assert ps[..n + 1] == ps[..n] + [ps[n]];
      var at := 0;
      while at < |sorted| && sorted[at] < ps[n]
        invariant 0 <= at <= |sorted| && forall i :: 0 <= i < at ==> sorted[i] < ps[n]
      {
        at := at + 1;
      }
      assert ps[n] !in ps[..n];
      assert at < |sorted| ==> sorted[at] in sorted;
      sorted := InsertedAt(sorted, at, ps[n]);
    }
    assert ps[..|ps|] == ps;
  }

  function InsertedAt(ps: seq<nat>, at: nat, p: nat): (r: seq<nat>)
    requires at <= |ps| && Increasing(ps) && (forall i :: 0 <= i < at ==> ps[i] < p) && (at < |ps| ==> p < ps[at])
    ensures Increasing(r) && forall q :: q in r <==> q in ps || q == p
  {
    var r := ps[..at] + [p] + ps[at..];
    assert ps == ps[..at] + ps[at..];
    r
  }

  lemma {:induction false} SameIncreasing(a: seq<nat>, b: seq<nat>)
    requires Increasing(a) && Increasing(b) && forall p :: p in a <==> p in b
    ensures a == b
  {
    NoneIn(b);
    if a == [] {
    } else {
      assert a[0] in b;
      assert b[0] in a;
      assert a[0] == b[0];
      forall p ensures p in a[1..] <==> p in b[1..] {
        InTail(a, p);
        InTail(b, p);
      }
      SameIncreasing(a[1..], b[1..]);
    }
  }

  lemma NoneIn(b: seq<nat>)
    ensures (forall p :: p !in b) ==> b == []
  {
    if b != [] { assert b[0] in b; }
  }

  lemma InTail(a: seq<nat>, p: int)
    requires a != [] && Increasing(a)
    ensures p in a[1..] <==> p in a && p != a[0]
  {
    assert a == [a[0]] + a[1..];
  }

  datatype Held = Held(place: nat, snr: Level)

  /** `best.values()`, in some order: sorting settles it. */
  method PlacesHeld(recs: seq<Spot>, best: map<Key, Held>) returns (ps: seq<nat>)
    requires forall k :: k in best ==> best[k].place < |recs| && KeyOf(recs[best[k].place]) == Some(k)
    ensures forall i, j :: 0 <= i < j < |ps| ==> ps[i] != ps[j]
    ensures forall p :: p in ps <==> exists k :: k in best && best[k].place == p
  {
    hide KeyOf;
    ps := [];
    var left, done: set<Key> := best.Keys, {};
    while left != {}
      invariant left + done == best.Keys && left * done == {}
      invariant forall i, j :: 0 <= i < j < |ps| ==> ps[i] != ps[j]
      invariant forall p :: p in ps <==> exists k :: k in done && best[k].place == p
    {
      var k :| k in left;
      assert best[k].place !in ps;
      ps := ps + [best[k].place];
      left, done := left - {k}, done + {k};
    }
  }

  /** What the loop holds after `n` records. */
  ghost predicate Scanned(recs: seq<Spot>, n: nat, best: map<Key, Held>, passed: seq<nat>)
    requires n <= |recs|
  {
    && (forall k :: k in best <==> BestAt(recs, n, k).Some?)
    && (forall k :: k in best ==> HeldAt(recs, n, k, best[k]))
    && Increasing(passed) && forall p :: p in passed <==> 0 <= p < n && KeyOf(recs[p]).None?
  }

  predicate HeldAt(recs: seq<Spot>, n: nat, k: Key, h: Held)
    requires n <= |recs|
  {
    BestAt(recs, n, k) == Some(h.place) && h.snr == SnrOf(recs[h.place])
  }

  function Stepped(recs: seq<Spot>, n: nat, best: map<Key, Held>): map<Key, Held>
    requires n < |recs|
  {
    var key, snr := KeyOf(recs[n]), SnrOf(recs[n]);
    if key.Some? && (key.value !in best || Above(snr, best[key.value].snr)) then best[key.value := Held(n, snr)] else best
  }

  lemma ScansOn(recs: seq<Spot>, n: nat, best: map<Key, Held>, passed: seq<nat>)
    requires n < |recs| && Scanned(recs, n, best, passed)
    ensures Scanned(recs, n + 1, Stepped(recs, n, best), if KeyOf(recs[n]).None? then passed + [n] else passed)
  {
    hide KeyOf, SnrOf, Above;
    var best' := Stepped(recs, n, best);
    forall k ensures (k in best' <==> BestAt(recs, n + 1, k).Some?) && (k in best' ==> HeldAt(recs, n + 1, k, best'[k])) {
      assert k in best ==> HeldAt(recs, n, k, best[k]);
    }
    assert forall i :: 0 <= i < |passed| ==> passed[i] in passed;
  }

  method Dedup(recs: seq<Spot>) returns (out: seq<Spot>)
    ensures out == Deduped(recs)
  {
    hide KeyOf, SnrOf, Above, Scanned, Survives, BestAt, Increasing;
    var best: map<Key, Held> := map[];
    var passed: seq<nat> := [];
    NothingScanned(recs);
    for pos := 0 to |recs|
      invariant Scanned(recs, pos, best, passed)
    {
      ScansOn(recs, pos, best, passed);
      var key := KeyOf(recs[pos]);
      if key.None? {
        passed := passed + [pos];
      } else {
        var snr := SnrOf(recs[pos]);
        if key.value !in best || Above(snr, best[key.value].snr) {
          best := best[key.value := Held(pos, snr)];
        }
      }
    }
    HeldPlaces(recs, best, passed);
    var values := PlacesHeld(recs, best);
    BestOrPassed(recs, best, values, passed);
    var sorted := SortPlaces(values + passed);
    SameIncreasing(sorted, Places(recs, |recs|));
    assert forall i :: 0 <= i < |sorted| ==> sorted[i] in sorted;
    out := Pick(recs, sorted);
  }

  lemma NothingScanned(recs: seq<Spot>)
    ensures Scanned(recs, 0, map[], [])
  {
  }

  lemma HeldPlaces(recs: seq<Spot>, best: map<Key, Held>, passed: seq<nat>)
    requires Scanned(recs, |recs|, best, passed)
    ensures forall k :: k in best ==> best[k].place < |recs| && KeyOf(recs[best[k].place]) == Some(k)
  {
    forall k | k in best ensures best[k].place < |recs| && KeyOf(recs[best[k].place]) == Some(k) {
      assert HeldAt(recs, |recs|, k, best[k]);
    }
  }

  /** Between them they hold each kept place once. */
  lemma BestOrPassed(recs: seq<Spot>, best: map<Key, Held>, values: seq<nat>, passed: seq<nat>)
    requires Scanned(recs, |recs|, best, passed)
    requires forall i, j :: 0 <= i < j < |values| ==> values[i] != values[j]
    requires forall p :: p in values <==> exists k :: k in best && best[k].place == p
    ensures forall p :: p in values + passed <==> 0 <= p < |recs| && Survives(recs, p)
    ensures forall i, j :: 0 <= i < j < |values + passed| ==> (values + passed)[i] != (values + passed)[j]
  {
    HeldPlaces(recs, best, passed);
    hide KeyOf, SnrOf, BestAt;
    forall p | p in values ensures 0 <= p < |recs| && KeyOf(recs[p]).Some? && Survives(recs, p) {
      var k :| k in best && best[k].place == p;
      assert HeldAt(recs, |recs|, k, best[k]);
    }
    forall p | 0 <= p < |recs| && KeyOf(recs[p]).Some? && Survives(recs, p) ensures p in values {
      var k := KeyOf(recs[p]).value;
      assert k in best;
      assert HeldAt(recs, |recs|, k, best[k]);
    }
    hide Survives, Scanned;
    Apart(recs, values, passed);
  }

  lemma Apart(recs: seq<Spot>, values: seq<nat>, passed: seq<nat>)
    requires forall p :: p in values ==> 0 <= p < |recs| && KeyOf(recs[p]).Some?
    requires forall p :: p in passed ==> 0 <= p < |recs| && KeyOf(recs[p]).None?
    requires forall i, j :: 0 <= i < j < |values| ==> values[i] != values[j]
    requires Increasing(passed)
    ensures forall i, j :: 0 <= i < j < |values + passed| ==> (values + passed)[i] != (values + passed)[j]
  {
    hide KeyOf;
    forall i, j | 0 <= i < j < |values + passed| ensures (values + passed)[i] != (values + passed)[j] {
      if i < |values| <= j {
        assert values[i] in values;
        assert passed[j - |values|] in passed;
      }
    }
  }
}
