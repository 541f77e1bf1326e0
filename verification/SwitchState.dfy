/** Setting and reading a sink switch (sinkswitch.py), and the check `sink set` makes
    of an identity first (cli.py). */
module SwitchState {
  import opened Cursors
  import S = Sink
  import T = Toml
  import opened TomlText
  import opened SwitchTree
  import opened SwitchText
  import opened SwitchFile

  // ---- what the writer cannot hold ------------------------------------------------

  datatype Complaint = Complaint(path: string, what: string)

  /** `_toml_problem`: none exactly for the values the printer takes. */
  method TomlProblem(v: Value, path: string) returns (bad: Option<Complaint>)
    ensures bad.None? <==> FitsValue(v)
    decreases v
  {
    match v
    case Null => bad := Some(Complaint(path, "null has no TOML form"));
    case Table(entries) =>
      for i := 0 to |entries|
        invariant forall j :: 0 <= j < i ==> entries[j].key != "" && FitsValue(entries[j].value)
      {
        if entries[i].key == "" { return Some(Complaint(path, "an empty key has no TOML form")); }
        bad := TomlProblem(entries[i].value, if path == "" then entries[i].key else path + "." + entries[i].key);
        if bad.Some? { return; }
      }
      bad := None;
    case List(items) =>
      if items != [] && exists i :: 0 <= i < |items| && !items[i].Table? {
        return Some(Complaint(path, "an array of values (only arrays of tables fit)"));
      }
      for i := 0 to |items|
        invariant forall j :: 0 <= j < i ==> FitsValue(items[j])
      {
        bad := TomlProblem(items[i], path + "[" + S.Decimal(i) + "]");
        if bad.Some? { return; }
      }
      bad := None;
    case _ => bad := None;
  }

  // ---- the states ---------------------------------------------------------------------

  /** In order of strictness, the loosest last. */
  datatype State = Off | Fill | Upload

  function Rank(s: State): nat {
    match s case Off => 0 case Fill => 1 case Upload => 2
  }

  function StateNamed(s: string): Option<State> {
    if s == "off" then Some(Off) else if s == "fill" then Some(Fill) else if s == "upload" then Some(Upload) else None
  }

  function NameOf(s: State): string {
    match s case Off => "off" case Fill => "fill" case Upload => "upload"
  }

  /** What one file says: missing, in error, or a state. */
  datatype SwitchRead = Missing | Error | Reads(state: State)

  /** `_parse`, of a file's text. */
  function ReadSwitch(text: Option<string>): SwitchRead {
    if text.None? then Missing
    else
      match Parse(text.value)
      case None => Error
      case Some(tree) =>
        if "state" in tree && tree["state"].Leaf? && tree["state"].value.Text? && StateNamed(tree["state"].value.s).Some?
        then Reads(StateNamed(tree["state"].value.s).value)
        else Error
  }

  /** `effective_state`: the stricter of the client's file and the site's. */
  function EffectiveState(validName: bool, client: SwitchRead, site: SwitchRead): State {
    if !validName || client.Missing? || client.Error? || site.Error? then Off
    else if site.Missing? then client.state
    else if Rank(client.state) <= Rank(site.state) then client.state
    else site.state
  }

  /** It fails closed: anything but a readable client file and a readable or missing
      site file reads off; otherwise it is the loosest state neither file forbids. */
  lemma EffectiveIsTheMeet(validName: bool, client: SwitchRead, site: SwitchRead, s: State)
    ensures Rank(s) <= Rank(EffectiveState(validName, client, site)) <==>
            s == Off || (validName && client.Reads? && Rank(s) <= Rank(client.state)
                         && (site.Missing? || (site.Reads? && Rank(s) <= Rank(site.state))))
  {
  }

  // ---- setting a switch --------------------------------------------------------------------

  function Lookup(es: seq<Entry>, k: string): Option<Value> {
    if es == [] then None
    else if es[|es| - 1].key == k then Some(es[|es| - 1].value)
    else Lookup(es[..|es| - 1], k)
  }

  /** `d[k] = v`: in place, or at the end. */
  function PutKey(es: seq<Entry>, k: string, v: Value): seq<Entry> {
    if es == [] then [Entry(k, v)]
    else if es[|es| - 1].key == k then es[..|es| - 1] + [Entry(k, v)]
    else PutKey(es[..|es| - 1], k, v) + [es[|es| - 1]]
  }

  /** `{**a, **b}`. */
  function Merged(a: seq<Entry>, b: seq<Entry>): seq<Entry> {
    if b == [] then a else PutKey(Merged(a, b[..|b| - 1]), b[|b| - 1].key, b[|b| - 1].value)
  }

  lemma {:induction false} PutLookup(es: seq<Entry>, k: string, v: Value, x: string)
    ensures Lookup(PutKey(es, k, v), x) == if x == k then Some(v) else Lookup(es, x)
  {
    if es == [] {
      assert [Entry(k, v)][..0] == [];
    } else {
      var front, e := es[..|es| - 1], es[|es| - 1];
      if e.key == k {
        assert (front + [Entry(k, v)])[..|front|] == front;
      } else {
        PutLookup(front, k, v, x);
        assert (PutKey(front, k, v) + [e])[..|PutKey(front, k, v)|] == PutKey(front, k, v);
      }
    }
  }

  lemma {:induction false} LookupIn(es: seq<Entry>, k: string)
    ensures Lookup(es, k).Some? <==> exists i :: 0 <= i < |es| && es[i].key == k
  {
    if es != [] {
      var front := es[..|es| - 1];
      LookupIn(front, k);
      if Lookup(front, k).Some? {
        var i :| 0 <= i < |front| && front[i].key == k;
        assert es[i].key == k;
      }
      if i :| 0 <= i < |es| && es[i].key == k && i < |front| {
        assert front[i].key == k;
      }
    }
  }

  lemma {:induction false} TreeLookup(es: seq<Entry>, k: string)
    requires IsDict(es)
    ensures k in TreeOf(es) <==> Lookup(es, k).Some?
    ensures k in TreeOf(es) ==> TreeOf(es)[k] == NodeOf(Lookup(es, k).value)
  {
    if es != [] {
      DictFront(es);
      TreeLookup(es[..|es| - 1], k);
    }
  }

  lemma {:induction false} PutIsDict(es: seq<Entry>, k: string, v: Value)
    requires IsDict(es) && IsDictValue(v)
    ensures IsDict(PutKey(es, k, v))
  {
    if es != [] {
      var front, e := es[..|es| - 1], es[|es| - 1];
      DictFront(es);
      if e.key == k {
        DictMore(front, Entry(k, v));
      } else {
        PutIsDict(front, k, v);
        PutLookup(front, k, v, e.key);
        LookupIn(front, e.key);
        LookupIn(PutKey(front, k, v), e.key);
        DictMore(PutKey(front, k, v), e);
      }
    }
  }

  lemma DictMore(front: seq<Entry>, e: Entry)
    requires IsDict(front) && IsDictValue(e.value) && forall i :: 0 <= i < |front| ==> front[i].key != e.key
    ensures IsDict(front + [e])
  {
    hide IsDictValue;
  }

  lemma PutLookups(es: seq<Entry>, k: string, v: Value)
    ensures forall x :: Lookup(PutKey(es, k, v), x) == if x == k then Some(v) else Lookup(es, x)
  {
    forall x ensures Lookup(PutKey(es, k, v), x) == if x == k then Some(v) else Lookup(es, x) {
      PutLookup(es, k, v, x);
    }
  }

  lemma {:induction false} MergedIsDict(a: seq<Entry>, b: seq<Entry>)
    requires IsDict(a) && IsDict(b)
    ensures IsDict(Merged(a, b))
  {
    if b != [] {
      DictFront(b);
      MergedIsDict(a, b[..|b| - 1]);
      PutIsDict(Merged(a, b[..|b| - 1]), b[|b| - 1].key, b[|b| - 1].value);
    }
  }

  lemma {:induction false} LookupIsDict(es: seq<Entry>, k: string)
    requires IsDict(es) && Lookup(es, k).Some?
    ensures IsDictValue(Lookup(es, k).value)
  {
    DictFront(es);
    if es[|es| - 1].key != k { LookupIsDict(es[..|es| - 1], k); }
  }

  datatype Change = Change(at: string, setBy: string, reason: string, grant: seq<Entry>, identity: seq<Entry>)

  /** `list(v)`; none when it raises. */
  function AsList(v: Option<Value>): Option<seq<Value>> {
    match v
    case None => Some([])
    case Some(List(items)) => Some(items)
    case Some(Str(s)) => Some(seq(|s|, i requires 0 <= i < |s| => Str([s[i]])))
    case Some(Table(es)) => Some(seq(|es|, i requires 0 <= i < |es| => Str(es[i].key)))
    case _ => None
  }

  /** One line of history. */
  function HistoryEntry(isSite: bool, was: State, to: State, change: Change): Value {
    Table([Entry("at", Str(change.at)), Entry("from", Str(NameOf(was))), Entry("to", Str(NameOf(to))),
           Entry("by", Str(change.setBy)), Entry("reason", Str(change.reason))]
          + if !isSite && change.identity != [] then [Entry("identity", Table(change.identity))] else [])
  }

  lemma HistoryIsDict(isSite: bool, was: State, to: State, change: Change)
    requires IsDict(change.identity)
    ensures IsDictValue(HistoryEntry(isSite, was, to, change))
  {
    var es := HistoryEntry(isSite, was, to, change).entries;
    var keys := ["at", "from", "to", "by", "reason", "identity"];
    assert |"at"| == 2 && |"from"| == 4 && |"reason"| == 6 && |"identity"| == 8 && "to"[0] != "by"[0] && "at"[0] != "to"[0] && "at"[0] != "by"[0];
    assert forall i :: 0 <= i < |es| ==> es[i].key == keys[i];
    assert forall i, j :: 0 <= i < j < 6 ==> keys[i] != keys[j];
    forall i | 0 <= i < |es| ensures IsDictValue(es[i].value) {
      if i == 5 { assert es[i].value == Table(change.identity); }
    }
  }

  lemma ListIsDict(es: seq<Entry>, k: string)
    requires IsDict(es) && AsList(Lookup(es, k)).Some?
    ensures forall i :: 0 <= i < |AsList(Lookup(es, k)).value| ==> IsDictValue(AsList(Lookup(es, k)).value[i])
  {
    if Lookup(es, k).Some? { LookupIsDict(es, k); }
  }

  /** The keys a write may touch. */
  predicate Touched(k: string, isSite: bool, change: Change) {
    || (k == "client" && !isSite) || k in {"state", "reason", "set_by", "set_at", "history"}
    || (k == "grant" && change.grant != [])
  }

  /** The plain fields of a write. */
  method SetFields(data: seq<Entry>, isSite: bool, client: string, to: State, change: Change) returns (d: seq<Entry>)
    requires IsDict(data)
    ensures IsDict(d)
    ensures Lookup(d, "state") == Some(Str(NameOf(to))) && Lookup(d, "reason") == Some(Str(change.reason))
    ensures Lookup(d, "set_by") == Some(Str(change.setBy)) && Lookup(d, "set_at") == Some(Str(change.at))
    ensures !isSite ==> Lookup(d, "client") == Some(Str(client))
    ensures forall k :: !(k == "client" && !isSite) && k !in {"state", "reason", "set_by", "set_at"} ==>
                        Lookup(d, k) == Lookup(data, k)
  {
    hide PutKey, Lookup, IsDict, NameOf;
    d := data;
    if !isSite {
      PutLookups(d, "client", Str(client));
      PutIsDict(d, "client", Str(client));
      d := PutKey(d, "client", Str(client));
    }
    PutLookups(d, "state", Str(NameOf(to)));
    PutIsDict(d, "state", Str(NameOf(to)));
    d := PutKey(d, "state", Str(NameOf(to)));
    PutLookups(d, "reason", Str(change.reason));
    PutIsDict(d, "reason", Str(change.reason));
    d := PutKey(d, "reason", Str(change.reason));
    PutLookups(d, "set_by", Str(change.setBy));
    PutIsDict(d, "set_by", Str(change.setBy));
    d := PutKey(d, "set_by", Str(change.setBy));
    PutLookups(d, "set_at", Str(change.at));
    PutIsDict(d, "set_at", Str(change.at));
    d := PutKey(d, "set_at", Str(change.at));
  }

  lemma FieldNames()
    ensures "history" !in {"client", "state", "reason", "set_by", "set_at", "grant"}
    ensures "grant" !in {"client", "state", "reason", "set_by", "set_at"}
  {
  }

  /** The change can be made: the history is a list of sorts, a grant to merge into a table. */
  predicate Updatable(data: seq<Entry>, change: Change) {
    && AsList(Lookup(data, "history")).Some?
    && (change.grant != [] && Lookup(data, "grant").Some? ==> Lookup(data, "grant").value.Table?)
  }

  /** `d` is `data` with the change made to it, and nothing else. */
  ghost predicate Changed(d: seq<Entry>, data: seq<Entry>, isSite: bool, client: string, was: State, to: State, change: Change)
    requires Updatable(data, change) && IsDict(data) && IsDict(change.grant)
  {
    && Lookup(d, "state") == Some(Str(NameOf(to)))
    && Lookup(d, "reason") == Some(Str(change.reason))
    && Lookup(d, "set_by") == Some(Str(change.setBy))
    && Lookup(d, "set_at") == Some(Str(change.at))
    && (!isSite ==> Lookup(d, "client") == Some(Str(client)))
    && (change.grant != [] ==> Lookup(d, "grant") == Some(Table(GrantOf(data, change.grant))))
    && Lookup(d, "history") == Some(List(AsList(Lookup(data, "history")).value + [HistoryEntry(isSite, was, to, change)]))
    && forall k :: !Touched(k, isSite, change) ==> Lookup(d, k) == Lookup(data, k)
  }

  /** The data part of `write_switch`: the new table, or none when it raises. */
  method UpdateData(data: seq<Entry>, isSite: bool, client: string, was: State, to: State, change: Change)
    returns (updated: Option<seq<Entry>>)
    requires IsDict(data) && IsDict(change.grant) && IsDict(change.identity)
    ensures updated.Some? <==> Updatable(data, change)
    ensures updated.Some? ==> IsDict(updated.value) && Changed(updated.value, data, isSite, client, was, to, change)
  {
    hide PutKey, Lookup, IsDict, Merged, NameOf, HistoryEntry, AsList;
    FieldNames();
    var d := SetFields(data, isSite, client, to, change);
    if change.grant != [] {
      var old_ := Lookup(d, "grant");
      if old_.Some? && !old_.value.Table? { return None; }
      var both := GrantOf(data, change.grant);
      PutLookups(d, "grant", Table(both));
      PutIsDict(d, "grant", Table(both));
      d := PutKey(d, "grant", Table(both));
    }
    var items := AsList(Lookup(d, "history"));
    if items.None? { return None; }
    ListIsDict(d, "history");
    HistoryIsDict(isSite, was, to, change);
    var history := List(items.value + [HistoryEntry(isSite, was, to, change)]);
    PutLookups(d, "history", history);
    PutIsDict(d, "history", history);
    d := PutKey(d, "history", history);
    updated := Some(d);
  }

  /** The grant in force and the one given, merged. */
  function GrantOf(data: seq<Entry>, grant: seq<Entry>): (r: seq<Entry>)
    requires IsDict(data) && IsDict(grant)
    ensures IsDict(r)
  {
    if Lookup(data, "grant").Some? && Lookup(data, "grant").value.Table? then
      LookupIsDict(data, "grant");
      MergedIsDict(Lookup(data, "grant").value.entries, grant);
      Merged(Lookup(data, "grant").value.entries, grant)
    else
      MergedIsDict([], grant);
      Merged([], grant)
  }

  lemma StateNames(s: State)
    ensures StateNamed(NameOf(s)) == Some(s)
  {
  }

  /** A written file reads as the state that was set, exactly when no key lets a
      newline through; otherwise it reads as broken, so off. */
  lemma WrittenReadsIff(data: seq<Entry>, to: State)
    requires IsDict(data) && Fits(data) && Lookup(data, "state") == Some(Str(NameOf(to)))
    ensures ReadSwitch(Some(Dumps(data))) == if GoodTree(data) then Reads(to) else Error
  {
    PrintsBackIff(data);
    TreeLookup(data, "state");
    StateNames(to);
    hide IsDict, Fits, GoodTree, TreeOf, Parse, Dumps, Lookup;
    assert NodeOf(Str(NameOf(to))) == T.Leaf(T.Text(NameOf(to)));
  }

  // ---- when a change can be written -------------------------------------------------------

  /** What stands under a key can be printed. */
  predicate Prints(es: seq<Entry>, k: string) {
    Lookup(es, k).Some? ==> k != "" && FitsValue(Lookup(es, k).value)
  }

  lemma {:induction false} LookupAt(es: seq<Entry>, i: nat)
    requires IsDict(es) && i < |es|
    ensures Lookup(es, es[i].key) == Some(es[i].value)
  {
    if i < |es| - 1 {
      DictFront(es);
      LookupAt(es[..|es| - 1], i);
    }
  }

  lemma {:induction false} LookupIsEntry(es: seq<Entry>, k: string)
    requires Lookup(es, k).Some?
    ensures Entry(k, Lookup(es, k).value) in es
  {
    if es[|es| - 1].key != k { LookupIsEntry(es[..|es| - 1], k); }
  }

  lemma FitsByKeys(es: seq<Entry>)
    requires IsDict(es)
    ensures Fits(es) <==> forall k :: Prints(es, k)
  {
    forall k | Fits(es) ensures Prints(es, k) {
      if Lookup(es, k).Some? { LookupIsEntry(es, k); }
    }
    if forall k :: Prints(es, k) {
      forall i | 0 <= i < |es| ensures es[i].key != "" && FitsValue(es[i].value) {
        LookupAt(es, i);
        assert Prints(es, es[i].key);
      }
    }
  }

  predicate PrintableItems(items: seq<Value>) {
    forall i :: 0 <= i < |items| ==> items[i].Table? && Fits(items[i].entries)
  }

  lemma ItemAppended(items: seq<Value>, h: Value)
    requires h.Table?
    ensures FitsValue(List(items + [h])) <==> PrintableItems(items) && Fits(h.entries)
  {
    var all := items + [h];
    assert all[|items|] == h;
    assert forall i :: 0 <= i < |items| ==> all[i] == items[i];
  }

  lemma HistoryFitsIff(isSite: bool, was: State, to: State, change: Change)
    ensures HistoryEntry(isSite, was, to, change).Table?
    ensures Fits(HistoryEntry(isSite, was, to, change).entries) <==> isSite || Fits(change.identity)
  {
    var es := HistoryEntry(isSite, was, to, change).entries;
    assert |es| >= 5 && forall i :: 0 <= i < 5 ==> es[i].key != "" && es[i].value.Str?;
    if |es| == 6 { assert es[5] == Entry("identity", Table(change.identity)); }
  }

  /** A caller's own test that a change will be written. */
  predicate Writable(data: seq<Entry>, isSite: bool, change: Change)
    requires IsDict(data) && IsDict(change.grant)
  {
    && Updatable(data, change)
    && (forall i :: 0 <= i < |data| && !Touched(data[i].key, isSite, change) ==> data[i].key != "" && FitsValue(data[i].value))
    && PrintableItems(AsList(Lookup(data, "history")).value)
    && (change.grant != [] ==> Fits(GrantOf(data, change.grant)))
    && (isSite || Fits(change.identity))
  }

  lemma KeptPrint(data: seq<Entry>, isSite: bool, change: Change)
    requires IsDict(data)
    ensures (forall i :: 0 <= i < |data| && !Touched(data[i].key, isSite, change) ==> data[i].key != "" && FitsValue(data[i].value))
            <==> forall k :: !Touched(k, isSite, change) ==> Prints(data, k)
  {
    hide Touched;
    if forall k :: !Touched(k, isSite, change) ==> Prints(data, k) {
      forall i | 0 <= i < |data| && !Touched(data[i].key, isSite, change)
        ensures data[i].key != "" && FitsValue(data[i].value)
      {
        LookupAt(data, i);
        assert Prints(data, data[i].key);
      }
    } else {
      var k :| !Touched(k, isSite, change) && !Prints(data, k);
      LookupIsEntry(data, k);
    }
  }

  /** Everything a change writes prints exactly when what it keeps and what it is given do. */
  lemma ChangedFitsIff(d: seq<Entry>, data: seq<Entry>, isSite: bool, client: string, was: State, to: State, change: Change)
    requires Updatable(data, change) && IsDict(data) && IsDict(change.grant) && IsDict(d)
    requires Changed(d, data, isSite, client, was, to, change)
    ensures Fits(d) <==> Writable(data, isSite, change)
  {
    hide Fits, IsDict, HistoryEntry, AsList, NameOf, GrantOf, Lookup, FitsValue, PrintableItems;
    FitsByKeys(d);
    KeptPrint(data, isSite, change);
    var items := AsList(Lookup(data, "history")).value;
    HistoryFitsIff(isSite, was, to, change);
    ItemAppended(items, HistoryEntry(isSite, was, to, change));
    StrFits();
    assert Prints(d, "history") <==> PrintableItems(items) && (isSite || Fits(change.identity));
    assert change.grant != [] ==> (Prints(d, "grant") <==> Fits(GrantOf(data, change.grant))) by {
      if change.grant != [] { TableFits(GrantOf(data, change.grant)); }
    }
    assert forall k :: !Touched(k, isSite, change) ==> (Prints(d, k) <==> Prints(data, k));
    assert forall k :: Touched(k, isSite, change) && k != "history" && k != "grant" ==> Prints(d, k);
  }

  lemma StrFits()
    ensures forall s :: FitsValue(Str(s))
  {
  }

  lemma TableFits(es: seq<Entry>)
    ensures FitsValue(Table(es)) <==> Fits(es)
  {
  }

  /** `write_switch`, but for the file: the table it writes and its text, or none when
      it raises and writes nothing. `broken`: the present file did not parse. */
  method WriteSwitch(data: seq<Entry>, broken: bool, isSite: bool, client: string, was: State, to: State, change: Change)
    returns (written: Option<(seq<Entry>, string)>)
    requires IsDict(data) && IsDict(change.grant) && IsDict(change.identity)
    ensures written.Some? <==> !broken && Writable(data, isSite, change)
    ensures written.Some? ==>
      && IsDict(written.value.0) && Changed(written.value.0, data, isSite, client, was, to, change)
      && Fits(written.value.0) && written.value.1 == Dumps(written.value.0)
      && ReadSwitch(Some(written.value.1)) == (if GoodTree(written.value.0) then Reads(to) else Error)
      && (GoodTree(written.value.0) ==> Parse(written.value.1) == Some(TreeOf(written.value.0)))
  {
    if broken { return None; }
    hide IsDict, Fits, FitsValue, PrintableItems, GoodTree, TreeOf, Parse, Dumps, Lookup, AsList, HistoryEntry, Touched, ReadSwitch, NameOf, GrantOf;
    var updated := UpdateData(data, isSite, client, was, to, change);
    if updated.None? { return None; }
    ChangedFitsIff(updated.value, data, isSite, client, was, to, change);
    var text := DumpsToml(updated.value);
    if text.None? { return None; }
    WrittenReadsIff(updated.value, to);
    written := Some((updated.value, text.value));
  }
}
