/** The topic table of a client as a value: registered names with their ids, oldest first,
    and the 16-bit counter that ids are drawn from. */
module TopicTable {
  import opened SortedMap
  import opened TopicFilter
  import opened Cycles

  const MAX_TOPIC_PAR_CLIENT := 50

  datatype TopicType = NORMAL | PREDEFINED | SHORT

  datatype Entry = Entry(typ: TopicType, id: nat, name: string)

  datatype Table = Table(entries: seq<Entry>, next: nat)

  const EMPTY := Table([], 0)

  /** A name as a NUL-terminated string: what precedes its first NUL. */
  function CStr(name: string): (r: string)
    ensures r <= name && '\0' !in r && (r == name <==> '\0' !in name)
  {
    if name == "" || name[0] == '\0' then ""
    else
      var r := CStr(name[1..]);
      assert name == [name[0]] + name[1..];
      [name[0]] + r
  }

  /** One increment of a uint16_t, and two more when it reaches 0xffff. */
  function NextTopicId(next: nat): nat {
    var n := (next + 1) % 0x10000;
    if n == 0xffff then (n + 2) % 0x10000 else n
  }

  function FindName(entries: seq<Entry>, name: string): (r: Option<Entry>)
    ensures r.Some? ==> r.value in entries && r.value.name == name
    ensures r.None? ==> forall e :: e in entries ==> e.name != name
  {
    if entries == [] then None
    else if entries[0].name == name then Some(entries[0])
    else FindName(entries[1..], name)
  }

  function FindId(entries: seq<Entry>, typ: TopicType, id: nat): (r: Option<Entry>)
    ensures r.Some? ==> r.value in entries && r.value.typ == typ && r.value.id == id
    ensures r.None? ==> forall e :: e in entries ==> !(e.typ == typ && e.id == id)
  {
    if entries == [] then None
    else if entries[0].typ == typ && entries[0].id == id then Some(entries[0])
    else FindId(entries[1..], typ, id)
  }

  /** The first entry whose name, read as a filter, matches. */
  function FindMatch(entries: seq<Entry>, name: string): (r: Option<Entry>)
    ensures r.Some? ==> r.value in entries && ScanAt(r.value.name, 0, name, 0)
    ensures r.None? ==> forall e :: e in entries ==> !ScanAt(e.name, 0, name, 0)
  {
    if entries == [] then None
    else if ScanAt(entries[0].name, 0, name, 0) then Some(entries[0])
    else FindMatch(entries[1..], name)
  }

  /** `add` with a NUL-terminated name; id 0 asks for a NORMAL topic with a new id. */
  function AddName(t: Table, name: string, id: nat): (Table, Option<Entry>) {
    if |t.entries| >= MAX_TOPIC_PAR_CLIENT then (t, None)
    else match FindName(t.entries, name)
      case Some(e) => (t, Some(e))
      case None =>
        if id == 0 then
          var next := NextTopicId(t.next);
          var e := Entry(NORMAL, next, name);
          (Table(t.entries + [e], next), Some(e))
        else
          var e := Entry(PREDEFINED, id, name);
          (Table(t.entries + [e], t.next), Some(e))
  }

  /** `add` with the topic of a packet: only NORMAL topics are registered this way. */
  function Register(t: Table, typ: TopicType, name: string): (Table, Option<Entry>) {
    if typ != NORMAL then (t, None)
    else match FindName(t.entries, name)
      case Some(e) => (t, Some(e))
      case None => AddName(t, CStr(name), 0)
  }

  function Others(entries: seq<Entry>): seq<Entry> {
    if entries == [] then []
    else (if entries[0].typ == NORMAL then [] else [entries[0]]) + Others(entries[1..])
  }

  function EraseNormal(t: Table): Table { Table(Others(t.entries), t.next) }

  // ---- the invariant ----

  function Normals(entries: seq<Entry>): seq<Entry> {
    if entries == [] then []
    else (if entries[0].typ == NORMAL then [entries[0]] else []) + Normals(entries[1..])
  }

  /** The id that was issued `age` issues before `next`, counting round the cycle. */
  function IssuedBefore(next: nat, age: nat): int {
    (next - 1 - age) % ID_PERIOD + 1
  }

  ghost predicate Aged(ns: seq<Entry>, next: nat) {
    forall i :: 0 <= i < |ns| ==> ns[i].id == IssuedBefore(next, |ns| - 1 - i)
  }

  /** The NORMAL topics carry exactly the ids issued last, in order of age. */
  ghost predicate Inv(t: Table) {
    && t.next <= 0xfffe
    && |t.entries| <= MAX_TOPIC_PAR_CLIENT
    && (forall i, j :: 0 <= i < j < |t.entries| ==> t.entries[i].name != t.entries[j].name)
    && var ns := Normals(t.entries);
       && (ns != [] ==> t.next >= 1)
       && Aged(ns, t.next)
  }

  lemma {:induction false} NormalsAppend(s: seq<Entry>, e: Entry)
    ensures Normals(s + [e]) == Normals(s) + (if e.typ == NORMAL then [e] else [])
    ensures |Normals(s)| <= |s|
  {
    if s != [] {
      assert (s + [e])[1..] == s[1..] + [e];
      NormalsAppend(s[1..], e);
    }
  }

  lemma {:induction false} OthersOnly(s: seq<Entry>)
    ensures Normals(Others(s)) == [] && |Others(s)| <= |s|
    ensures forall e :: e in Others(s) <==> e in s && e.typ != NORMAL
  {
    if s != [] {
      OthersOnly(s[1..]);
      assert Others(s) == Others(s[1..]) || Others(s)[1..] == Others(s[1..]);
    }
  }

  lemma {:induction false} OthersAppend(s: seq<Entry>, e: Entry)
    ensures Others(s + [e]) == Others(s) + (if e.typ == NORMAL then [] else [e])
  {
    if s != [] {
      assert (s + [e])[1..] == s[1..] + [e];
      OthersAppend(s[1..], e);
    }
  }

  lemma {:induction false} OthersDistinct(s: seq<Entry>)
    requires forall i, j :: 0 <= i < j < |s| ==> s[i].name != s[j].name
    ensures var o := Others(s); forall i, j :: 0 <= i < j < |o| ==> o[i].name != o[j].name
  {
    if s != [] {
      var o := Others(s[1..]);
      OthersDistinct(s[1..]);
      OthersOnly(s[1..]);
      forall j | 0 <= j < |o| ensures o[j].name != s[0].name {
        assert o[j] in s[1..];
      }
    }
  }

  lemma NextOnCycle(next: nat)
    requires next <= 0xfffe
    ensures 1 <= NextTopicId(next) <= 0xfffe
    ensures IssuedBefore(NextTopicId(next), 0) == NextTopicId(next)
    ensures next >= 1 ==> forall age: nat :: IssuedBefore(NextTopicId(next), age + 1) == IssuedBefore(next, age)
  {
    if next >= 1 {
      forall age: nat ensures IssuedBefore(NextTopicId(next), age + 1) == IssuedBefore(next, age) {
        if next == 0xfffe {
          assert (0 - 1 - age) % ID_PERIOD == (0xfffe - 1 - age) % ID_PERIOD;
        }
      }
    }
  }

  /** Every topic is one issue older once another id has been issued. */
  lemma AgedNext(ns: seq<Entry>, next: nat, e: Entry)
    requires Aged(ns, next) && next <= 0xfffe && (ns != [] ==> next >= 1) && e.id == NextTopicId(next)
    ensures Aged(ns + [e], NextTopicId(next))
  {
    NextOnCycle(next);
    var ms := ns + [e];
    forall i | 0 <= i < |ms| ensures ms[i].id == IssuedBefore(NextTopicId(next), |ms| - 1 - i) {
      if i < |ns| {
        assert IssuedBefore(NextTopicId(next), |ns| - 1 - i + 1) == IssuedBefore(next, |ns| - 1 - i);
      }
    }
  }

  lemma AddInv(t: Table, name: string, id: nat)
    requires Inv(t)
    ensures Inv(AddName(t, name, id).0)
    ensures t.entries <= AddName(t, name, id).0.entries
  {
    var (t', r) := AddName(t, name, id);
    if t' != t {
      var e := t'.entries[|t.entries|];
      NormalsAppend(t.entries, e);
      if id == 0 {
        AgedNext(Normals(t.entries), t.next, e);
        NextOnCycle(t.next);
      } else {
        assert Normals(t'.entries) == Normals(t.entries);
      }
    }
  }

  lemma RegisterInv(t: Table, typ: TopicType, name: string)
    requires Inv(t)
    ensures Inv(Register(t, typ, name).0)
    ensures t.entries <= Register(t, typ, name).0.entries
  {
    AddInv(t, CStr(name), 0);
  }

  lemma EraseInv(t: Table)
    requires Inv(t)
    ensures Inv(EraseNormal(t))
    ensures forall e :: e in EraseNormal(t).entries <==> e in t.entries && e.typ != NORMAL
  {
    OthersOnly(t.entries);
    OthersDistinct(t.entries);
  }

  // ---- every run ----

  datatype Op = Reg(typ: TopicType, name: string) | Add(cname: string, id: nat) | Erase

  function Step(t: Table, op: Op): Table {
    match op
    case Reg(typ, name) => Register(t, typ, name).0
    case Add(name, id) => AddName(t, name, id).0
    case Erase => EraseNormal(t)
  }

  function Run(t: Table, ops: seq<Op>): Table
    decreases |ops|
  {
    if ops == [] then t else Run(Step(t, ops[0]), ops[1..])
  }

  lemma {:induction false} RunInv(t: Table, ops: seq<Op>)
    requires Inv(t)
    ensures Inv(Run(t, ops))
    decreases |ops|
  {
    if ops != [] {
      StepInv(t, ops[0]);
      RunInv(Step(t, ops[0]), ops[1..]);
    }
  }

  lemma StepInv(t: Table, op: Op)
    requires Inv(t)
    ensures Inv(Step(t, op)) && (!op.Erase? ==> t.entries <= Step(t, op).entries)
  {
    match op
    case Reg(typ, name) => RegisterInv(t, typ, name);
    case Add(name, id) => AddInv(t, name, id);
    case Erase => EraseInv(t);
  }

  lemma AgesDiffer(next: nat, a: nat, b: nat)
    requires a < b < MAX_TOPIC_PAR_CLIENT && 1 <= next <= 0xfffe
    ensures IssuedBefore(next, a) != IssuedBefore(next, b)
    ensures 1 <= IssuedBefore(next, a) <= 0xfffe
  {
  }

  lemma {:induction false} NormalsMembers(s: seq<Entry>)
    ensures forall e :: e in Normals(s) <==> e in s && e.typ == NORMAL
    ensures |Normals(s)| <= |s|
  {
    if s != [] {
      NormalsMembers(s[1..]);
    }
  }

  /** However often the counter has wrapped: live NORMAL topics have different ids between
      1 and 0xfffe, names are unique, and no more than fifty topics exist. */
  lemma LiveIdsDistinct(ops: seq<Op>, a: Entry, b: Entry)
    ensures var t := Run(EMPTY, ops);
            && |t.entries| <= MAX_TOPIC_PAR_CLIENT
            && (a in t.entries && a.typ == NORMAL ==> 1 <= a.id <= 0xfffe)
            && (a in t.entries && b in t.entries && a.typ == NORMAL && b.typ == NORMAL && a != b ==> a.id != b.id)
            && (a in t.entries && b in t.entries && a.name == b.name ==> a == b)
  {
    RunInv(EMPTY, ops);
    InvMeaning(Run(EMPTY, ops), a, b);
  }

  lemma NormalIdsDiffer(t: Table, i: nat, j: nat)
    requires Inv(t) && i < |Normals(t.entries)| && j < |Normals(t.entries)| && i != j
    ensures Normals(t.entries)[i].id != Normals(t.entries)[j].id
  {
    var n := |Normals(t.entries)|;
    NormalsMembers(t.entries);
    if i < j {
      AgesDiffer(t.next, n - 1 - j, n - 1 - i);
    } else {
      AgesDiffer(t.next, n - 1 - i, n - 1 - j);
    }
  }

  lemma NormalIdRange(t: Table, i: nat)
    requires Inv(t) && i < |Normals(t.entries)|
    ensures 1 <= Normals(t.entries)[i].id <= 0xfffe
  {
    var ns := Normals(t.entries);
    assert ns[i].id == IssuedBefore(t.next, |ns| - 1 - i);
  }

  lemma InvMeaning(t: Table, a: Entry, b: Entry)
    requires Inv(t)
    ensures a in t.entries && a.typ == NORMAL ==> 1 <= a.id <= 0xfffe
    ensures a in t.entries && b in t.entries && a.typ == NORMAL && b.typ == NORMAL && a != b ==> a.id != b.id
    ensures a in t.entries && b in t.entries && a.name == b.name ==> a == b
  {
    var ns := Normals(t.entries);
    NormalsMembers(t.entries);
    if a in ns {
      var i :| 0 <= i < |ns| && ns[i] == a;
      NormalIdRange(t, i);
      if b in ns && a != b {
        var j :| 0 <= j < |ns| && ns[j] == b;
        NormalIdsDiffer(t, i, j);
      }
    }
  }

  /** A registered NORMAL topic is found again by its id, and by its name. */
  lemma Resolves(t: Table, e: Entry)
    requires Inv(t) && e in t.entries
    ensures e.typ == NORMAL ==> FindId(t.entries, NORMAL, e.id) == Some(e)
    ensures FindName(t.entries, e.name) == Some(e)
  {
    var r := FindId(t.entries, NORMAL, e.id);
    if e.typ == NORMAL { InvMeaning(t, e, r.value); }
    InvMeaning(t, e, FindName(t.entries, e.name).value);
  }

  /** Registering the name finds no predefined topic: none has the name as it stands, and, when
      no topic has, none has what precedes a NUL in it. */
  predicate RegistersNormal(t: Table, name: string) {
    && (forall e :: e in t.entries && e.name == name ==> e.typ == NORMAL)
    && ((forall e :: e in t.entries ==> e.name != name) ==>
          forall e :: e in t.entries && e.name == CStr(name) ==> e.typ == NORMAL)
  }

  lemma RegisteredType(t: Table, name: string)
    requires Inv(t) && Register(t, NORMAL, name).1.Some?
    ensures Register(t, NORMAL, name).1.value.typ == NORMAL <==> RegistersNormal(t, name)
  {
    var r := Register(t, NORMAL, name).1.value;
    var byName, byCStr := FindName(t.entries, name), FindName(t.entries, CStr(name));
    if byName.Some? {
      forall e | e in t.entries && e.name == name ensures e == r {
        InvMeaning(t, e, r);
      }
    } else if byCStr.Some? {
      forall e | e in t.entries && e.name == CStr(name) ensures e == r {
        InvMeaning(t, e, r);
      }
    }
  }

  /** The id that registering a name returns resolves back to it as a NORMAL id, whatever is added
      after it and until the normal topics are erased: exactly when no predefined topic is found. */
  lemma {:induction false} RegisteredResolves(t: Table, name: string, ops: seq<Op>)
    requires Inv(t) && forall op :: op in ops ==> !op.Erase?
    ensures var (t', r) := Register(t, NORMAL, name);
            r.Some? ==>
              && r.value.name in {name, CStr(name)}
              && (FindId(Run(t', ops).entries, NORMAL, r.value.id) == r <==> RegistersNormal(t, name))
  {
    var (t', r) := Register(t, NORMAL, name);
    RegisterInv(t, NORMAL, name);
    if r.Some? {
      RegisteredType(t, name);
      assert r.value in t'.entries;
      RunGrows(t', ops);
      RunInv(t', ops);
      Resolves(Run(t', ops), r.value);
    }
  }

  /** A client that registers a predefined name is given its predefined id, and a later topic may
      get the same id as a NORMAL one: what the client then publishes under it goes elsewhere. */
  lemma PredefinedNameMisleads()
    ensures var t := AddName(EMPTY, "abc", 1).0;
            var (t', r) := Register(t, NORMAL, "abc");
            var (t'', q) := Register(t', NORMAL, "xyz");
            && r == Some(Entry(PREDEFINED, 1, "abc"))
            && FindId(t''.entries, NORMAL, r.value.id) == q == Some(Entry(NORMAL, 1, "xyz"))
  {
    var t := AddName(EMPTY, "abc", 1).0;
    assert t.entries == [Entry(PREDEFINED, 1, "abc")];
    assert CStr("xyz") == "xyz";
    var t'' := Register(t, NORMAL, "xyz").0;
    assert t''.entries == [Entry(PREDEFINED, 1, "abc"), Entry(NORMAL, 1, "xyz")];
    assert t''.entries[1..] == [Entry(NORMAL, 1, "xyz")];
  }

  lemma {:induction false} RunGrows(t: Table, ops: seq<Op>)
    requires Inv(t) && forall op :: op in ops ==> !op.Erase?
    ensures t.entries <= Run(t, ops).entries
    decreases |ops|
  {
    if ops != [] {
      StepInv(t, ops[0]);
      RunGrows(Step(t, ops[0]), ops[1..]);
    }
  }

  // ---- configured tables ----

  /** Every name is a C string. */
  predicate CNames(t: Table) { forall e :: e in t.entries ==> '\0' !in e.name }

  /** What the configuration file makes of a table before the first packet: predefined topics
      only, under 16-bit ids other than 0 and named by C strings. */
  ghost predicate Configuration(t: Table) {
    Inv(t) && CNames(t) && forall e :: e in t.entries ==> e.typ == PREDEFINED && 0 < e.id < 0x10000
  }

  lemma {:induction false} AddsConfigure(t: Table, adds: seq<Op>)
    requires Configuration(t) && forall op :: op in adds ==> op.Add? && 0 < op.id < 0x10000 && '\0' !in op.cname
    ensures Configuration(Run(t, adds))
    decreases |adds|
  {
    if adds != [] {
      StepInv(t, adds[0]);
      AddsConfigure(Step(t, adds[0]), adds[1..]);
    }
  }

  /** What a client's table looks like when no predefined id is configured twice for it. */
  ghost predicate Configured(t: Table) {
    && Inv(t)
    && (forall e :: e in t.entries ==> e.typ != SHORT && e.id < 0x10000)
    && (forall e, f :: e in t.entries && f in t.entries && e.typ == f.typ == PREDEFINED && e.id == f.id ==> e == f)
  }
}
