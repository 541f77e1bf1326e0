/** The gate a daemon's pipelines ask before every send (gate.py, `SinkGate`): its
    fields and its lock sections, each proved to be a step of module Gate. */
module Gating {
  import opened Cursors
  import opened Gate

  /** What a call into code this gate does not own gives, or the type of what it raised. */
  datatype Read<T> = Ok(value: T) | Raised(kind: nat)

  datatype Decision = Decision(send: bool, rule: nat)

  /** What `effective_state` read of a client's and the site's switch files. */
  datatype Switches = Switches(upload: bool, clientError: bool, siteError: bool, clientMissing: bool)

  /** What one decision reads of a pipeline and of the disk; `key`: its origin and name. */
  datatype Facts = Facts(key: PipeKey, governed: bool, exempt: Read<nat>, marker: Read<bool>, client: Option<nat>,
                         validName: bool, switches: Read<Switches>, sinksThere: Read<bool>)

  /** What the five rules say, whatever lines they log. */
  function Ruling(facts: Facts): Read<Decision> {
    match facts.exempt
    case Raised(kind) => Read<Decision>.Raised(kind)
    case Ok(1) => Ok(Decision(true, 1))
    case Ok(2) => Ok(Decision(true, 2))
    case Ok(_) =>
      match facts.marker
      case Raised(kind) => Read<Decision>.Raised(kind)
      case Ok(false) => Ok(Decision(true, 3))
      case Ok(true) =>
        if facts.client.None? then Ok(Decision(true, 4))
        else match facts.switches
          case Raised(kind) => Read<Decision>.Raised(kind)
          case Ok(eff) =>
            if facts.validName && eff.clientMissing && facts.sinksThere.Raised? then Read<Decision>.Raised(facts.sinksThere.kind)
            else Ok(Decision(eff.upload, 5))
  }

  lemma RulesNumbered(facts: Facts)
    ensures Ruling(facts).Ok? ==> 1 <= Ruling(facts).value.rule <= 5
  {
  }

  /** When a fault logs: a lasting one every six hours, a new one while there is room. */
  predicate Due(f: Faults, key: Key, now: int) {
    if key in f.faultAt then now - f.faultAt[key] >= REMIND else key !in f.said && |f.said| < SAID_CAP
  }

  predicate Reminds(f: Faults, key: Key, now: int) {
    key in f.faultAt && now - f.faultAt[key] >= REMIND
  }

  /** No exception key's entry differs. */
  ghost predicate NoExceptionTouched(f: Faults, f': Faults) {
    && (forall x: Key :: x.Exc? ==> KeySame(f, f', x))
    && f'.errors == f.errors && f'.excKeys == f.excKeys && f'.cleared == f.cleared
  }

  /** Whether one pipeline is mid-decision makes no difference once it is not. */
  lemma AtRest(f: Faults, c: Counts, forgotten: set<PipeKey>, k: PipeKey, j: PipeKey)
    requires Inv(OWN, State(f, c, forgotten, map[k := Idle]))
    ensures Inv(OWN, State(f, c, forgotten, map[j := Idle]))
  {
    var s, s' := State(f, c, forgotten, map[k := Idle]), State(f, c, forgotten, map[j := Idle]);
    hide Tables, Clocks, Balance;
    forall i: PipeKey ensures PcOk(f, c, i, PcOf(s', i)) { assert PcOk(f, c, i, PcOf(s, i)); }
  }

  /** One lock section of a pipeline that decides alone. */
  lemma AloneKeeps(f: Faults, c: Counts, forgotten: set<PipeKey>, k: PipeKey, pc: Pc, now: int)
    requires Inv(OWN, State(f, c, forgotten, map[k := pc])) && pc != Idle
    ensures var (f', c', pc') := NextSection(f, c, k, pc, now); Inv(OWN, State(f', c', forgotten, map[k := pc']))
  {
    var (f', c', pc') := NextSection(f, c, k, pc, now);
    var s := State(f, c, forgotten, map[k := pc]);
    assert s.pcs[k := pc'] == map[k := pc'];
    hide Inv, NextSection;
    StepKeeps(OWN, s, State(f', c', forgotten, map[k := pc']), k, Section(now));
  }

  lemma AloneStarts(f: Faults, c: Counts, forgotten: set<PipeKey>, k: PipeKey, kind: nat)
    requires Inv(OWN, State(f, c, forgotten, map[k := Idle]))
    ensures Inv(OWN, State(f, c, forgotten, map[k := Pc.Raised(Exc(k, kind))]))
  {
    var s := State(f, c, forgotten, map[k := Idle]);
    assert s.pcs[k := Pc.Raised(Exc(k, kind))] == map[k := Pc.Raised(Exc(k, kind))];
    hide Inv;
    StepKeeps(OWN, s, State(f, c, forgotten, map[k := Pc.Raised(Exc(k, kind))]), k, Raise(kind));
  }

  lemma AloneJudges(f: Faults, c: Counts, forgotten: set<PipeKey>, k: PipeKey, key: Key)
    requires Inv(OWN, State(f, c, forgotten, map[k := Idle])) && !key.Exc?
    ensures Inv(OWN, State(f, c, forgotten, map[k := Judging(key)]))
  {
    var s := State(f, c, forgotten, map[k := Idle]);
    assert s.pcs[k := Judging(key)] == map[k := Judging(key)];
    hide Inv;
    StepKeeps(OWN, s, State(f, c, forgotten, map[k := Judging(key)]), k, FileFault(key));
  }

  lemma AloneSteps(s: State, f': Faults, c': Counts, k: PipeKey, step: Step)
    requires Inv(OWN, s) && s.pcs == map[k := Idle] && Takes(OWN, s, s.(f := f', c := c'), k, step)
    ensures Inv(OWN, s.(f := f', c := c'))
  {
    hide Inv, Takes;
    StepKeeps(OWN, s, s.(f := f', c := c'), k, step);
  }

  class SinkGate {
    var said: set<Key>
    var capped: bool
    var last: map<PipeKey, bool>
    var faultAt: map<Key, int>
    var excKeys: map<PipeKey, set<Key>>
    var cleared: set<Key>
    var owed: set<PipeKey>
    var lastCapped: bool
    /** When each exception key's ERROR lines were, how many ERROR and recovery lines
        each pipeline had, what its last transition line told, who was forgotten. */
    ghost var errors: map<Key, seq<int>>
    ghost var held: map<PipeKey, nat>
    ghost var recovered: map<PipeKey, nat>
    ghost var told: map<PipeKey, bool>
    ghost var forgotten: set<PipeKey>

    ghost function F(): Faults
      reads `said, `faultAt, `excKeys, `cleared, `errors
    {
      Faults(said, faultAt, excKeys, cleared, errors)
    }

    ghost function C(): Counts
      reads `owed, `held, `recovered
    {
      Counts(owed, held, recovered)
    }

    /** The gate while pipeline `k`'s decision stands at `pc`. */
    ghost function At(k: PipeKey, pc: Pc): State
      reads `said, `faultAt, `excKeys, `cleared, `errors, `owed, `held, `recovered, `forgotten
    {
      State(F(), C(), forgotten, map[k := pc])
    }

    /** What a reader of the log takes pipeline `k` to do. */
    ghost predicate Believed(k: PipeKey)
      reads `told
    {
      k in told ==> told[k]
    }

    /** The log tells of every tracked pipeline its last real decision, within the cap. */
    ghost predicate Tracked()
      reads `last, `told
    {
      && (forall k :: k in last ==> last[k] == Believed(k))
      && (forall k :: k in told ==> k in last)
      && |last| <= SAID_CAP
    }

    ghost predicate Valid()
      reads this
    {
      (forall k: PipeKey :: Inv(OWN, At(k, Idle))) && Tracked()
    }

    constructor ()
      ensures Valid() && said == {} && last == map[] && told == map[]
    {
      said, capped, last, faultAt, excKeys, cleared, owed, lastCapped := {}, false, map[], map[], map[], {}, {}, false;
      errors, held, recovered, told, forgotten := map[], map[], map[], map[], {};
      new;
      forall k: PipeKey ensures Inv(OWN, At(k, Idle)) { NewGate(k); }
    }

    lemma Rested(k: PipeKey)
      requires Inv(OWN, At(k, Idle)) && Tracked()
      ensures Valid()
    {
      hide Inv, Tracked;
      forall j: PipeKey ensures Inv(OWN, At(j, Idle)) { AtRest(F(), C(), forgotten, k, j); }
    }

    lemma Starts(k: PipeKey)
      requires Valid()
      ensures Inv(OWN, At(k, Idle)) && Tracked()
    {
    }

    // ---- lock sections ----------------------------------------------------------------

    method First(key: Key) returns (first: bool)
      modifies `said, `capped
      ensures (said, first) == FirstSight(old(said), key)
    {
      if key in said { return false; }
      if |said| >= SAID_CAP {
        capped := true;
        return false;
      }
      said := said + {key};
      return true;
    }

    method Clear(key: Key)
      modifies `said, `faultAt
      ensures F() == ClearFault(old(F()), key)
    {
      if key in faultAt {
        faultAt := faultAt - {key};
        said := said - {key};
      }
    }

    method StartOver(key: Key, now: int) returns (say: Option<Say>)
      modifies `cleared, `faultAt, `errors, `held
      ensures (F(), say) == Recur(old(F()), key, now)
      ensures C() == if say == Some(Say.First) then OneHeld(old(C()), key) else old(C())
    {
      if key !in cleared { return None; }
      cleared := cleared - {key};
      if key in faultAt && now - faultAt[key] < REMIND { return Some(Silent); }
      Stamp(key, now);
      return Some(Say.First);
    }

    /** Sets a key's clock; an exception's ERROR line follows. */
    method Stamp(key: Key, now: int)
      modifies `faultAt, `errors, `held
      ensures F() == Clocked(old(F()), key, now) && C() == OneHeld(old(C()), key)
    {
      faultAt := faultAt[key := now];
      if key.Exc? {
        errors := errors[key := ErrorsOf(errors, key) + [now]];
        held := held[key.pipe := Number(held, key.pipe) + 1];
      }
    }

    method Remind(key: Key, now: int) returns (say: Option<Say>)
      modifies `faultAt, `errors, `held
      ensures (F(), say) == Lasting(old(F()), key, now)
      ensures C() == if say == Some(Say.Remind) then OneHeld(old(C()), key) else old(C())
    {
      if key !in faultAt { return None; }
      if now - faultAt[key] < REMIND { return Some(Silent); }
      Stamp(key, now);
      return Some(Say.Remind);
    }

    /** Whether a fault says something, and its clock with it: three lock sections. */
    method Fault(key: Key, now: int, firstLogs: bool) returns (say: Say)
      modifies `said, `capped, `faultAt, `errors, `held
      ensures var (f, c, s) := Judged(old(F()), old(C()), key, now);
        F() == f && C() == c && say == if s == Say.First && !firstLogs then Silent else s
    {
      hide Clocked, OneHeld;
      var lasting := Remind(key, now);
      if lasting.Some? { return lasting.value; }
      var first := First(key);
      if !first { return Silent; }
      Stamp(key, now);
      return if firstLogs then Say.First else Silent;
    }

    method ClearOutbreak(k: PipeKey) returns (back: bool)
      modifies `excKeys, `cleared, `owed, `recovered
      ensures F() == ClearExceptions(old(F()), k) && C() == Recover(old(C()), k) && back == (k in old(owed))
    {
      cleared := cleared + if k in excKeys then excKeys[k] else {};
      excKeys := excKeys - {k};
      back := k in owed;
      if back {
        owed := owed - {k};
        recovered := recovered[k := Number(recovered, k) + 1];
      }
    }

    method Note(k: PipeKey, key: Key, say: Say)
      modifies `excKeys, `owed
      ensures F() == NoteException(old(F()), k, key) && C() == Owe(old(C()), k, say)
    {
      if key in faultAt { excKeys := excKeys[k := KeysOf(excKeys, k) + {key}]; }
      if say != Silent && |owed| < SAID_CAP { owed := owed + {k}; }
    }

    /** An exception inside the decision: its line, and who owes a recovery line. */
    method Outbreak(k: PipeKey, kind: nat, t1: int, t2: int) returns (error: bool)
      modifies `said, `capped, `faultAt, `excKeys, `cleared, `owed, `errors, `held
      ensures var (f, c, say) := Outbroken(old(F()), old(C()), k, Exc(k, kind), t1, t2);
        F() == f && C() == c && error == (say != Silent)
    {
      hide Recur, Judged, NoteException, Owe, OneHeld;
      var key := Exc(k, kind);
      var again := StartOver(key, t1);
      var say := Silent;
      if again.Some? {
        say := again.value;
      } else {
        say := Fault(key, t2, true);
      }
      Note(k, key, say);
      return say != Silent;
    }

    // ---- the decision -----------------------------------------------------------------

    /** One switch-file fault: raised, or cleared. It speaks exactly when it is due; a
        first sight another module logs stays silent. */
    method FileFault(k: PipeKey, key: Key, err: bool, firstLogs: bool, now: int) returns (say: Say)
      requires Inv(OWN, At(k, Idle)) && !key.Exc?
      modifies `said, `capped, `faultAt, `errors, `held
      ensures Inv(OWN, At(k, Idle)) && NoExceptionTouched(old(F()), F()) && C() == old(C())
      ensures say != Silent <==> err && Due(old(F()), key, now) && (key in old(faultAt) || firstLogs)
      ensures forall x: Key :: x != key ==> KeySame(old(F()), F(), x)
      ensures key !in old(said) && key !in old(faultAt) && err && say == Silent && firstLogs ==> |said| == SAID_CAP
    {
      hide Inv, Judged, ClearFault, NoExceptionTouched, KeySame, Due;
      say := Silent;
      if err {
        FileFaultKeeps(F(), C(), forgotten, k, key, now);
        FileFaultMeans(F(), C(), forgotten, k, key, now);
        say := Fault(key, now, firstLogs);
      } else {
        FileClearKeeps(F(), C(), forgotten, k, key);
        ClearTouches(F(), key);
        Clear(key);
      }
    }

    /** A first-time line that is not about an exception. */
    method Once(k: PipeKey, key: Key) returns (first: bool)
      requires Inv(OWN, At(k, Idle)) && !key.Exc?
      modifies `said, `capped
      ensures Inv(OWN, At(k, Idle)) && NoExceptionTouched(old(F()), F())
    {
      hide Inv, FirstSight, NoExceptionTouched;
      OnceKeeps(F(), C(), forgotten, k, key);
      first := First(key);
    }

    /** A decision's switch-file faults. Those of the files themselves only remind, every
        six hours; a missing switch directory also speaks at first sight. */
    method FileFaults(facts: Facts, eff: Switches, sinksGone: bool, now: int) returns (client: Say, site: Say, sinks: Say)
      requires Inv(OWN, At(facts.key, Idle)) && facts.client.Some?
      modifies `said, `capped, `faultAt, `errors, `held
      ensures Inv(OWN, At(facts.key, Idle)) && NoExceptionTouched(old(F()), F()) && C() == old(C())
      ensures client != Silent <==> eff.clientError && Reminds(old(F()), ClientFault(facts.client.value), now)
      ensures site != Silent <==> facts.validName && eff.siteError && Reminds(old(F()), SiteFault, now)
      ensures NoSinks in old(faultAt) ==> (sinks != Silent <==> facts.validName && sinksGone && Reminds(old(F()), NoSinks, now))
      ensures NoSinks !in old(faultAt) ==>
                (sinks != Silent ==> facts.validName && sinksGone && NoSinks !in old(said)) &&
                (facts.validName && sinksGone && NoSinks !in old(said) && sinks == Silent ==> |said| == SAID_CAP)
    {
      hide Inv, NoExceptionTouched;
      ghost var f0 := F();
      site, sinks := Silent, Silent;
      client := FileFault(facts.key, ClientFault(facts.client.value), eff.clientError, false, now);
      if facts.validName {
        ghost var f1 := F();
        assert KeySame(f0, f1, SiteFault) && KeySame(f0, f1, NoSinks);
        site := FileFault(facts.key, SiteFault, eff.siteError, false, now);
        ghost var f2 := F();
        assert KeySame(f1, f2, NoSinks);
        sinks := FileFault(facts.key, NoSinks, sinksGone, true, now);
        UntouchedTwice(f0, f1, f2);
        UntouchedTwice(f0, f2, F());
      }
    }

    /** The five rules: an exception of a call they make leaves no exception key touched. */
    method Rules(facts: Facts, now: int) returns (d: Read<Decision>)
      requires Inv(OWN, At(facts.key, Idle))
      modifies `said, `capped, `faultAt, `errors, `held
      ensures d == Ruling(facts)
      ensures Inv(OWN, At(facts.key, Idle)) && NoExceptionTouched(old(F()), F()) && C() == old(C())
    {
      hide Inv, NoExceptionTouched;
      ghost var f0 := F();
      UntouchedSame(f0);
      if facts.exempt.Raised? { return Read<Decision>.Raised(facts.exempt.kind); }
      if facts.exempt.value == 1 { return Ok(Decision(true, 1)); }
      if !facts.governed {
        var _ := Once(facts.key, Ungoverned(facts.key));
      }
      if facts.exempt.value == 2 { return Ok(Decision(true, 2)); }
      if facts.marker.Raised? { return Read<Decision>.Raised(facts.marker.kind); }
      if !facts.marker.value { return Ok(Decision(true, 3)); }
      ghost var f1 := F();
      if facts.client.None? {
        var _ := Once(facts.key, NoClient(facts.key));
        UntouchedTwice(f0, f1, F());
        return Ok(Decision(true, 4));
      }
      if facts.switches.Raised? { return Read<Decision>.Raised(facts.switches.kind); }
      var eff := facts.switches.value;
      if facts.validName && eff.clientMissing && facts.sinksThere.Raised? {
        return Read<Decision>.Raised(facts.sinksThere.kind);
      }
      var sinksGone := facts.validName && eff.clientMissing && !facts.sinksThere.value;
      var _, _, _ := FileFaults(facts, eff, sinksGone, now);
      UntouchedTwice(f0, f1, F());
      return Ok(Decision(eff.upload, 5));
    }

    /** A pipeline's change between sending and held, told once each: whoever reads
        the log knows every tracked pipeline's last real decision. */
    method Transition(k: PipeKey, d: Decision) returns (line: bool)
      requires Tracked()
      modifies `last, `lastCapped, `told
      ensures Tracked()
      ensures line <==> d.rule != 0 && k in last && old(Believed(k)) != d.send
      ensures told == if line then old(told)[k := d.send] else old(told)
      ensures d.rule == 0 ==> last == old(last)
      ensures d.rule != 0 ==>
                if k in old(last) || |old(last)| < SAID_CAP then last == old(last)[k := d.send]
                else last == old(last)
    {
      if d.rule == 0 { return false; }
      if k !in last && |last| >= SAID_CAP {
        lastCapped := true;
        return false;
      }
      var newcomer := k !in last;
      var same := k in last && last[k] == d.send;
      last := last[k := d.send];
      if same || (newcomer && d.send) { return false; }
      told := told[k := d.send];
      return true;
    }

    /** What a raised exception does to the ERROR lines: `now` is the clock read that counts. */
    ghost predicate Reported(f0: Faults, key: Key, now: int, error: bool)
      reads `errors, `said
    {
      && (key in f0.faultAt ==> (error <==> now - f0.faultAt[key] >= REMIND))
      && (key !in f0.faultAt && key !in f0.said && !error ==> |said| == SAID_CAP)
      && errors == if error then f0.errors[key := ErrorsOf(f0.errors, key) + [now]] else f0.errors
    }

    /** The rules and what a raised exception leads to. The clock is read anew by each
        part that needs it. */
    method Judge(facts: Facts, t0: int, t1: int, t2: int) returns (d: Decision, error: bool, back: bool)
      requires Inv(OWN, At(facts.key, Idle))
      modifies `said, `capped, `faultAt, `excKeys, `cleared, `owed, `errors, `held, `recovered
      ensures Inv(OWN, At(facts.key, Idle))
      ensures d == if Ruling(facts).Ok? then Ruling(facts).value else Decision(false, 0)
      ensures back <==> Ruling(facts).Ok? && facts.key in old(owed)
      ensures Ruling(facts).Ok? ==> !error && errors == old(errors)
      ensures Ruling(facts).Raised? ==>
                var key := Exc(facts.key, Ruling(facts).kind); Reported(old(F()), key, if key in old(cleared) then t1 else t2, error)
    {
      hide Inv, Valid, Tracked, Believed, Ruling, NoExceptionTouched, Clocked, ClearExceptions, Recover, Recur, Lasting,
           FirstSight, Judged, NoteException, Owe, Outbroken, Due, KeySame, ErrorsOf, KeysOf, OneHeld;
      var k := facts.key;
      var r := Rules(facts, t0);
      error, back := false, false;
      if r.Ok? {
        d := r.value;
        CleanKeeps(F(), C(), forgotten, k);
        CleanMeans(old(F()), F(), k);
        back := ClearOutbreak(k);
      } else {
        OutbreakKeeps(F(), C(), forgotten, k, r.kind, t1, t2);
        OutbreakMeans(old(F()), F(), C(), forgotten, k, Exc(k, r.kind), t1, t2);
        error := Outbreak(k, r.kind, t1, t2);
        d := Decision(false, 0);
      }
    }

    /** A pipeline may send: fails closed, keeps every table, and an exception's ERROR
        line comes at most once in six hours whether or not it came and went meanwhile. */
    method Decide(facts: Facts, t0: int, t1: int, t2: int) returns (d: Decision, error: bool, back: bool, line: bool)
      requires Valid()
      modifies this
      ensures Valid() && forgotten == old(forgotten)
      ensures d == if Ruling(facts).Ok? then Ruling(facts).value else Decision(false, 0)
      ensures back <==> Ruling(facts).Ok? && facts.key in old(owed)
      ensures Ruling(facts).Ok? ==> !error && errors == old(errors)
      ensures Ruling(facts).Raised? ==>
                var key := Exc(facts.key, Ruling(facts).kind); Reported(old(F()), key, if key in old(cleared) then t1 else t2, error)
      ensures line <==> Ruling(facts).Ok? && facts.key in last && old(Believed(facts.key)) != d.send
      ensures told == if line then old(told)[facts.key := d.send] else old(told)
    {
      hide Inv, Valid, Tracked, Believed, Ruling, NoExceptionTouched, Clocked, ClearExceptions, Recover, Recur, Lasting,
           FirstSight, Judged, NoteException, Owe, Outbroken, Due, KeySame, Reported, ErrorsOf, KeysOf, OneHeld;
      Starts(facts.key);
      RulesNumbered(facts);
      d, error, back := Judge(facts, t0, t1, t2);
      line := Transition(facts.key, d);
      Rested(facts.key);
    }

    /** After a rebuild changed the running set: whole pipelines go. */
    method Forget(keep: set<PipeKey>)
      requires Valid()
      modifies this
      ensures Valid() && told == map k | k in old(told) && k in keep :: old(told)[k]
      ensures last == map k | k in old(last) && k in keep :: old(last)[k]
      ensures owed == old(owed) * keep
      ensures forall x: Key :: x.Exc? && x.pipe in keep ==> KeySame(old(F()), F(), x)
      ensures forall x: Key :: x.Exc? && x.pipe !in keep ==> x !in cleared && x !in KeysOf(excKeys, x.pipe)
    {
      hide Inv, Valid, Tracked, KeySame, KeysOf, Gate.Forget, Dropped;
      Starts(0);
      ForgotKeeps(F(), C(), forgotten, keep, 0);
      DropTransitions(keep);
      owed := owed * keep;
      DropExceptions(keep);
      Rested(0);
    }

    method DropTransitions(keep: set<PipeKey>)
      requires Tracked()
      modifies `last, `told
      ensures Tracked() && told == map k | k in old(told) && k in keep :: old(told)[k]
      ensures last == map k | k in old(last) && k in keep :: old(last)[k]
    {
      var kept := map k | k in last && k in keep :: last[k];
      FewerKept(last, kept);
      last := kept;
      told := map k | k in told && k in keep :: told[k];
    }

    method DropExceptions(keep: set<PipeKey>)
      modifies `excKeys, `cleared, `faultAt, `said, `forgotten
      ensures F() == Gate.Forget(old(F()), keep)
      ensures forgotten == old(forgotten) + set x | x in Dropped(old(F()), keep) && x.Exc? :: x.pipe
    {
      hide Gate.Forget, Dropped;
      var gone := set k, x | k in excKeys && k !in keep && x in excKeys[k] :: x;
      var dead := set x | x in cleared && x.Exc? && x.pipe !in keep;
      excKeys := map k | k in excKeys && k in keep :: excKeys[k];
      cleared := cleared - dead;
      forgotten := forgotten + set x: Key | x in gone + dead && x.Exc? :: x.pipe;
      faultAt := faultAt - gone - dead;
      said := said - gone - dead;
      SameForgotten(old(F()), F(), keep, gone, dead);
    }
  }

  lemma FewerKept(m: map<PipeKey, bool>, kept: map<PipeKey, bool>)
    requires kept.Keys <= m.Keys
    ensures |kept| <= |m|
  {
    Fewer(m.Keys, kept.Keys);
    assert |kept| == |kept.Keys| && |m| == |m.Keys|;
  }

  lemma SameForgotten(f: Faults, f': Faults, keep: set<PipeKey>, gone: set<Key>, dead: set<Key>)
    requires gone == (set k, x | k in f.excKeys && k !in keep && x in f.excKeys[k] :: x)
    requires dead == (set x | x in f.cleared && x.Exc? && x.pipe !in keep)
    requires f'.excKeys == (map k | k in f.excKeys && k in keep :: f.excKeys[k]) && f'.cleared == f.cleared - dead
    requires f'.said == f.said - gone - dead && f'.faultAt == f.faultAt - gone - dead && f'.errors == f.errors
    ensures f' == Gate.Forget(f, keep) && gone + dead == Dropped(f, keep)
  {
    assert f'.said == f.said - (gone + dead);
    assert f'.faultAt == f.faultAt - (gone + dead);
  }

  lemma ForgotKeeps(f: Faults, c: Counts, forgotten: set<PipeKey>, keep: set<PipeKey>, k: PipeKey)
    requires Inv(OWN, State(f, c, forgotten, map[k := Idle]))
    ensures var f', gone := Gate.Forget(f, keep), set x | x in Dropped(f, keep) && x.Exc? :: x.pipe;
      && Inv(OWN, State(f', c.(owed := c.owed * keep), forgotten + gone, map[k := Idle]))
      && (forall x: Key :: x.Exc? && x.pipe in keep ==> KeySame(f, f', x))
      && (forall x: Key :: x.Exc? && x.pipe !in keep ==> x !in f'.cleared && x !in KeysOf(f'.excKeys, x.pipe))
  {
    var s := State(f, c, forgotten, map[k := Idle]);
    ForgetKeeps(f, keep, forgotten);
    hide Inv;
    StepKeeps(OWN, s, State(Gate.Forget(f, keep), c.(owed := c.owed * keep),
                       forgotten + set x | x in Dropped(f, keep) && x.Exc? :: x.pipe, s.pcs), k, ForgetAll(keep));
  }

  /** What other parts of a decision leave alone. */
  lemma UntouchedSame(f: Faults)
    ensures NoExceptionTouched(f, f)
  {
  }

  lemma UntouchedTwice(f: Faults, f1: Faults, f2: Faults)
    requires NoExceptionTouched(f, f1) && NoExceptionTouched(f1, f2)
    ensures NoExceptionTouched(f, f2)
  {
    forall x: Key | x.Exc? ensures KeySame(f, f2, x) { assert KeySame(f, f1, x) && KeySame(f1, f2, x); }
  }

  lemma FileFaultKeeps(f: Faults, c: Counts, forgotten: set<PipeKey>, k: PipeKey, key: Key, now: int)
    requires Inv(OWN, State(f, c, forgotten, map[k := Idle])) && !key.Exc?
    ensures var (f', c', _) := Judged(f, c, key, now);
      Inv(OWN, State(f', c', forgotten, map[k := Idle])) && NoExceptionTouched(f, f') && c' == c
  {
    hide Inv;
    AloneJudges(f, c, forgotten, k, key);
    JudgedKeeps(f, c, forgotten, k, key, now);
    JudgedMeans(f, c, key, now);
  }

  lemma FileFaultMeans(f: Faults, c: Counts, forgotten: set<PipeKey>, k: PipeKey, key: Key, now: int)
    requires Inv(OWN, State(f, c, forgotten, map[k := Idle]))
    ensures var (f', _, say) := Judged(f, c, key, now);
      && (say != Silent <==> Due(f, key, now)) && (say == Say.First ==> key !in f.faultAt)
      && (say == Say.Remind ==> key in f.faultAt)
      && (forall x: Key :: x != key ==> KeySame(f, f', x))
      && (key !in f.said && key !in f.faultAt && say == Silent ==> |f'.said| == SAID_CAP)
  {
    Capped(f, c, forgotten, k);
    hide Inv;
    JudgedMeans(f, c, key, now);
  }

  lemma ClearTouches(f: Faults, key: Key)
    ensures forall x: Key :: x != key ==> KeySame(f, ClearFault(f, key), x)
  {
  }

  lemma FileClearKeeps(f: Faults, c: Counts, forgotten: set<PipeKey>, k: PipeKey, key: Key)
    requires Inv(OWN, State(f, c, forgotten, map[k := Idle])) && !key.Exc?
    ensures Inv(OWN, State(ClearFault(f, key), c, forgotten, map[k := Idle])) && NoExceptionTouched(f, ClearFault(f, key))
  {
    hide Inv;
    AloneSteps(State(f, c, forgotten, map[k := Idle]), ClearFault(f, key), c, k, FileClear(key));
  }

  lemma OnceKeeps(f: Faults, c: Counts, forgotten: set<PipeKey>, k: PipeKey, key: Key)
    requires Inv(OWN, State(f, c, forgotten, map[k := Idle])) && !key.Exc?
    ensures var f' := f.(said := FirstSight(f.said, key).0);
      Inv(OWN, State(f', c, forgotten, map[k := Idle])) && NoExceptionTouched(f, f')
  {
    hide Inv;
    AloneSteps(State(f, c, forgotten, map[k := Idle]), f.(said := FirstSight(f.said, key).0), c, k, OnceLine(key));
  }

  lemma CleanKeeps(f: Faults, c: Counts, forgotten: set<PipeKey>, k: PipeKey)
    requires Inv(OWN, State(f, c, forgotten, map[k := Idle]))
    ensures Inv(OWN, State(ClearExceptions(f, k), Recover(c, k), forgotten, map[k := Idle]))
  {
    hide Inv;
    AloneSteps(State(f, c, forgotten, map[k := Idle]), ClearExceptions(f, k), Recover(c, k), k, Clean);
  }

  /** An exception's sections, in a row. */
  function Outbroken(f: Faults, c: Counts, k: PipeKey, key: Key, t1: int, t2: int): (Faults, Counts, Say) {
    var (f1, again) := Recur(f, key, t1);
    var (f2, c2, say) := if again.Some? then (f1, if again == Some(Say.First) then OneHeld(c, key) else c, again.value)
                         else Judged(f1, c, key, t2);
    (NoteException(f2, k, key), Owe(c2, k, say), say)
  }

  lemma OutbreakKeeps(f: Faults, c: Counts, forgotten: set<PipeKey>, k: PipeKey, kind: nat, t1: int, t2: int)
    requires Inv(OWN, State(f, c, forgotten, map[k := Idle]))
    ensures var (f', c', _) := Outbroken(f, c, k, Exc(k, kind), t1, t2); Inv(OWN, State(f', c', forgotten, map[k := Idle]))
  {
    hide Inv, Recur, Judged;
    var key := Exc(k, kind);
    AloneStarts(f, c, forgotten, k, kind);
    AloneKeeps(f, c, forgotten, k, Pc.Raised(key), t1);
    var (f1, again) := Recur(f, key, t1);
    if again.Some? {
      var c1 := if again == Some(Say.First) then OneHeld(c, key) else c;
      AloneKeeps(f1, c1, forgotten, k, Noting(key, again.value), t1);
    } else {
      JudgedKeeps(f1, c, forgotten, k, key, t2);
      var (f2, c2, say) := Judged(f1, c, key, t2);
      AloneKeeps(f2, c2, forgotten, k, Noting(key, say), t2);
    }
  }

  /** What one exception leads to, whatever the rules did before it was raised: its ERROR
      line comes exactly when six hours have passed since its last, cleared or not. */
  lemma OutbreakMeans(f0: Faults, f: Faults, c: Counts, forgotten: set<PipeKey>, k: PipeKey, key: Key, t1: int, t2: int)
    requires NoExceptionTouched(f0, f) && key.Exc? && key.pipe == k && Inv(OWN, State(f, c, forgotten, map[k := Idle]))
    ensures var (f', c', say) := Outbroken(f, c, k, key, t1, t2);
      var t := if key in f0.cleared then t1 else t2;
      && (key in f0.faultAt ==> (say != Silent <==> t - f0.faultAt[key] >= REMIND))
      && (key !in f0.faultAt && key !in f0.said && say == Silent ==> |f'.said| == SAID_CAP)
      && f'.errors == if say != Silent then f0.errors[key := ErrorsOf(f0.errors, key) + [t]] else f0.errors
  {
    assert KeySame(f0, f, key) && Placed(f, key);
    Capped(f, c, forgotten, k);
    hide Inv, NoExceptionTouched;
    JudgedMeans(f, c, key, t2);
    hide Judged;
  }

  lemma Capped(f: Faults, c: Counts, forgotten: set<PipeKey>, k: PipeKey)
    requires Inv(OWN, State(f, c, forgotten, map[k := Idle]))
    ensures |f.said| <= SAID_CAP
  {
  }

  lemma CleanMeans(f0: Faults, f: Faults, k: PipeKey)
    requires NoExceptionTouched(f0, f)
    ensures ClearExceptions(f, k).errors == f0.errors
  {
  }

  lemma NewGate(k: PipeKey)
    ensures Inv(OWN, State(Faults({}, map[], map[], {}, map[]), Counts({}, map[], map[]), {}, map[k := Idle]))
  {
  }

  // ---- what a decision's sections do together ----------------------------------------------

  /** `_fault`, its sections in a row. */
  function Judged(f: Faults, c: Counts, key: Key, now: int): (Faults, Counts, Say) {
    var (f1, lasting) := Lasting(f, key, now);
    if lasting.Some? then (f1, if lasting == Some(Say.Remind) then OneHeld(c, key) else c, lasting.value)
    else
      var (said, first) := FirstSight(f.said, key);
      if first then (Clocked(f.(said := said), key, now), OneHeld(c, key), Say.First) else (f.(said := said), c, Silent)
  }

  lemma JudgedKeeps(f: Faults, c: Counts, forgotten: set<PipeKey>, k: PipeKey, key: Key, now: int)
    requires Inv(OWN, State(f, c, forgotten, map[k := Judging(key)]))
    ensures var (f', c', say) := Judged(f, c, key, now); Inv(OWN, State(f', c', forgotten, map[k := Answered(key, say)]))
  {
    hide Inv, Clocked, OneHeld;
    AloneKeeps(f, c, forgotten, k, Judging(key), now);
    if Lasting(f, key, now).1.None? {
      assert Lasting(f, key, now).0 == f;
      AloneKeeps(f, c, forgotten, k, Seeking(key), now);
      var (said, first) := FirstSight(f.said, key);
      if first { AloneKeeps(f.(said := said), c, forgotten, k, Seen(key), now); }
    }
  }

  /** A fault says something exactly when it is due, and only its own entries change. */
  lemma JudgedMeans(f: Faults, c: Counts, key: Key, now: int)
    ensures var (f', c', say) := Judged(f, c, key, now);
      && (say != Silent <==> Due(f, key, now))
      && (say == Silent ==> f' == f && c' == c)
      && (say != Silent ==> key in f'.faultAt && f'.faultAt[key] == now)
      && f'.errors == (if say != Silent && key.Exc? then f.errors[key := ErrorsOf(f.errors, key) + [now]] else f.errors)
      && (forall x: Key :: x != key ==> KeySame(f, f', x)) && f'.excKeys == f.excKeys && f'.cleared == f.cleared
  {
  }
}
