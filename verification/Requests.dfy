/** parseReq (flow/flow.go): one application object becomes one request. Go iterates over the object's keys in
    an arbitrary order. */
module Requests {
  import opened Common
  import Schema

  datatype Value =
    | Null
    | Bool(b: bool)
    | Int(n: int)
    | Number(r: real)
    | Text(s: string)
    | List(items: seq<Value>)
    | Object(fields: map<string, Value>)

  datatype Field = Field(key: string, value: Value)

  datatype Parsed = Parsed(
    debugId: string, name: string, tag: string, isBreak: bool, isAsync: bool,
    limit: Option<Schema.Limit>, trace: Option<string>, args: Value)

  const BLANK: Parsed := Parsed("", "", "", false, false, None, None, Null)

  // ----- the values of the reserved keys -----

  function DebugId(v: Value): string {
    if v.Text? then v.s else ""
  }

  function Flag(v: Value): bool {
    v == Bool(true)
  }

  /** strconv.Itoa */
  function Itoa(n: int): string
    decreases if n < 0 then 1 - n else n
  {
    if n < 0 then "-" + Itoa(-n)
    else if n < 10 then [(n as char) + '0']
    else Itoa(n / 10) + Itoa(n % 10)
  }

  /** The tag, if the value can be one. */
  function TagOf(v: Value): Option<string> {
    match v
    case Text(s) => Some(s)
    case Int(n) => Some(Itoa(n))
    case _ => None
  }

  function TextAt(m: map<string, Value>, k: string): string {
    if k in m && m[k].Text? then m[k].s else ""
  }

  /** newLimiter */
  function LimitOf(m: map<string, Value>): Option<Schema.Limit> {
    var max := if "max" in m && m["max"].Number? then m["max"].r else 0.0;
    var failover := TextAt(m, "failover");
    if max > 0.0 && |failover| > 0 then Some(Schema.Limit(max.Floor % 0x1_0000_0000, failover)) else None
  }

  /** newLog */
  function TraceOf(m: map<string, Value>): Option<string> {
    if TextAt(m, "name") != "" then Some(TextAt(m, "name")) else None
  }

  // ----- the loop -----

  predicate Reserved(k: string) {
    k in {"_id", "break", "async", "tag", "limit", "trace"}
  }

  /** The body of the loop, for one key. */
  function Take(r: Parsed, k: string, v: Value): Parsed {
    if k == "_id" then (if v.Text? then r.(debugId := v.s) else r)
    else if k == "break" then (if Flag(v) then r.(isBreak := true) else r)
    else if k == "async" then (if Flag(v) then r.(isAsync := true) else r)
    else if k == "tag" then (if TagOf(v).Some? then r.(tag := TagOf(v).value) else r)
    else if k == "limit" then (if v.Object? then r.(limit := LimitOf(v.fields)) else r)
    else if k == "trace" then (if v.Object? then r.(trace := TraceOf(v.fields)) else r)
    else if r.name == "" then r.(name := k, args := v)
    else r
  }

  function TakeAll(fields: seq<Field>): Parsed {
    if fields == [] then BLANK
    else Take(TakeAll(fields[..|fields| - 1]), fields[|fields| - 1].key, fields[|fields| - 1].value)
  }

  /** An object that has no application but is flagged as a break is the break application. */
  function Finish(r: Parsed): Parsed {
    if r.name == "" && r.isBreak then r.(name := "break") else r
  }

  method ParseReq(fields: seq<Field>) returns (r: Parsed)
    ensures r == Finish(TakeAll(fields))
  {
    r := BLANK;
    for i := 0 to |fields|
      invariant r == TakeAll(fields[..i])
    {
      assert fields[..i + 1][..i] == fields[..i];
      r := Take(r, fields[i].key, fields[i].value);
    }
    assert fields[..|fields|] == fields;
    if r.name == "" && r.isBreak {
      r := r.(name := "break");
    }
  }

  // ----- what an object means, whatever the order -----

  /** A key that names an application. */
  predicate IsName(k: string) {
    !Reserved(k) && k != ""
  }

  /** At most one key of the object names an application. */
  ghost predicate Unambiguous(m: map<string, Value>) {
    forall a, b | a in m && b in m && IsName(a) && IsName(b) :: a == b
  }

  ghost function NameOf(m: map<string, Value>): (k: string)
    ensures if exists a :: a in m && IsName(a) then k in m && IsName(k) else k == ""
  {
    if exists a :: a in m && IsName(a) then var a :| a in m && IsName(a); a else ""
  }

  /** What each part of the request is, read off the object as a whole. */
  ghost function Described(m: map<string, Value>): Parsed {
    Parsed(
      if "_id" in m then DebugId(m["_id"]) else "",
      NameOf(m),
      if "tag" in m && TagOf(m["tag"]).Some? then TagOf(m["tag"]).value else "",
      "break" in m && Flag(m["break"]),
      "async" in m && Flag(m["async"]),
      if "limit" in m && m["limit"].Object? then LimitOf(m["limit"].fields) else None,
      if "trace" in m && m["trace"].Object? then TraceOf(m["trace"].fields) else None,
      if NameOf(m) in m then m[NameOf(m)] else Null)
  }

  function AsMap(fields: seq<Field>): map<string, Value> {
    if fields == [] then map[]
    else AsMap(fields[..|fields| - 1])[fields[|fields| - 1].key := fields[|fields| - 1].value]
  }

  ghost predicate DistinctKeys(fields: seq<Field>) {
    forall i, j | 0 <= i < j < |fields| :: fields[i].key != fields[j].key
  }

  /** `fields` lists the object `m` in some order. */
  ghost predicate Lists(fields: seq<Field>, m: map<string, Value>) {
    DistinctKeys(fields) && AsMap(fields) == m
  }

  lemma NameGrows(m: map<string, Value>, k: string, v: Value)
    requires k !in m && Unambiguous(m[k := v])
    ensures Unambiguous(m)
    ensures if IsName(k) then NameOf(m) == "" && NameOf(m[k := v]) == k else NameOf(m[k := v]) == NameOf(m)
  {
    hide Reserved;
    var m' := m[k := v];
    assert k in m' && forall a | a in m :: a in m';
  }

  lemma {:induction false} AsMapKeys(fields: seq<Field>)
    ensures forall i | 0 <= i < |fields| :: fields[i].key in AsMap(fields)
    ensures forall k | k in AsMap(fields) :: exists i :: 0 <= i < |fields| && fields[i].key == k
  {
    if fields != [] {
      var n := |fields| - 1;
      AsMapKeys(fields[..n]);
      forall k | k in AsMap(fields) ensures exists i :: 0 <= i < |fields| && fields[i].key == k {
        if k != fields[n].key {
          var i :| 0 <= i < n && fields[..n][i].key == k;
          assert fields[i].key == k;
        }
      }
    }
  }

  lemma ReservedDescribes(m: map<string, Value>, k: string, v: Value)
    requires k !in m && Reserved(k) && NameOf(m[k := v]) == NameOf(m)
    ensures Take(Described(m), k, v) == Described(m[k := v])
  {
    hide NameOf, LimitOf, TraceOf, TagOf, Flag;
    var m' := m[k := v];
    assert NameOf(m) != k;
    var d, d' := Described(m), Described(m');
    assert d'.name == d.name && d'.args == d.args;
    assert k != "_id" ==> d'.debugId == d.debugId;
    assert k != "tag" ==> d'.tag == d.tag;
    assert k != "limit" ==> d'.limit == d.limit;
    assert k != "trace" ==> d'.trace == d.trace;
  }

  lemma NameDescribes(m: map<string, Value>, k: string, v: Value)
    requires k !in m && !Reserved(k)
    requires if IsName(k) then NameOf(m) == "" && NameOf(m[k := v]) == k else NameOf(m[k := v]) == NameOf(m)
    ensures Take(Described(m), k, v) == Described(m[k := v])
  {
    hide NameOf, LimitOf, TraceOf, TagOf, Flag, DebugId;
    var d, d' := Described(m), Described(m[k := v]);
    assert d' == d.(name := d'.name, args := d'.args);
  }

  lemma TakeDescribes(m: map<string, Value>, k: string, v: Value)
    requires k !in m && Unambiguous(m[k := v])
    ensures Unambiguous(m)
    ensures Take(Described(m), k, v) == Described(m[k := v])
  {
    hide NameOf, Unambiguous, Described, Take, Reserved;
    NameGrows(m, k, v);
    if Reserved(k) {
      ReservedDescribes(m, k, v);
    } else {
      NameDescribes(m, k, v);
    }
  }

  lemma {:induction false} TakeAllDescribes(fields: seq<Field>)
    requires DistinctKeys(fields) && Unambiguous(AsMap(fields))
    ensures TakeAll(fields) == Described(AsMap(fields))
  {
    if fields == [] {
    } else {
      var front, last := fields[..|fields| - 1], fields[|fields| - 1];
      AsMapKeys(front);
      TakeDescribes(AsMap(front), last.key, last.value);
      TakeAllDescribes(front);
    }
  }

  /** For an unambiguous object every order gives the request the object describes. */
  lemma UnambiguousIsDescribed(fields: seq<Field>, m: map<string, Value>)
    requires Lists(fields, m) && Unambiguous(m)
    ensures Finish(TakeAll(fields)) == Finish(Described(m))
  {
    TakeAllDescribes(fields);
  }

  // ----- and for no other object -----

  /** The first key that names an application wins, and its value becomes the arguments. */
  lemma {:induction false} FirstNameWins(fields: seq<Field>, i: nat)
    requires i < |fields| && IsName(fields[i].key) && forall j | 0 <= j < i :: !IsName(fields[j].key)
    ensures TakeAll(fields).name == fields[i].key && TakeAll(fields).args == fields[i].value
  {
    var front := fields[..|fields| - 1];
    if i < |fields| - 1 {
      FirstNameWins(front, i);
    } else {
      NoNameYet(front);
    }
  }

  lemma {:induction false} NoNameYet(fields: seq<Field>)
    requires forall j | 0 <= j < |fields| :: !IsName(fields[j].key)
    ensures TakeAll(fields).name == ""
  {
    if fields != [] {
      NoNameYet(fields[..|fields| - 1]);
    }
  }

  /** Any object can be listed, starting with any of its keys. */
  lemma {:induction false} ListsExist(m: map<string, Value>) returns (fields: seq<Field>)
    ensures Lists(fields, m)
    decreases |m|
  {
    if m == map[] {
      fields := [];
    } else {
      var k :| k in m;
      var rest := m - {k};
      var front := ListsExist(rest);
      fields := front + [Field(k, m[k])];
      AsMapKeys(front);
      assert fields[..|front|] == front;
      assert rest[k := m[k]] == m;
    }
  }

  lemma {:induction false} AsMapFirst(f: Field, rest: seq<Field>)
    requires DistinctKeys([f] + rest)
    ensures AsMap([f] + rest) == AsMap(rest)[f.key := f.value]
    decreases |rest|
  {
    var s := [f] + rest;
    if rest == [] {
      assert s[..0] == [];
    } else {
      var front, last := rest[..|rest| - 1], rest[|rest| - 1];
      assert s[..|s| - 1] == [f] + front;
      assert s[|s| - 1] == last && s[0] == f;
      AsMapFirst(f, front);
    }
  }

  lemma ListsFrom(m: map<string, Value>, k: string) returns (fields: seq<Field>)
    requires k in m
    ensures Lists(fields, m) && fields != [] && fields[0].key == k
  {
    var rest := m - {k};
    var tail := ListsExist(rest);
    fields := [Field(k, m[k])] + tail;
    AsMapKeys(tail);
    AsMapFirst(Field(k, m[k]), tail);
    assert rest[k := m[k]] == m;
  }

  /** All orders of an object's keys give the same request. */
  ghost predicate OrderIndependent(m: map<string, Value>) {
    forall f, g | Lists(f, m) && Lists(g, m) :: Finish(TakeAll(f)) == Finish(TakeAll(g))
  }

  /** The header under which the request stands in a schema; `text` renders its arguments. */
  function HeaderOf(r: Parsed, text: Value -> string): Schema.Header {
    Schema.Header(r.debugId, r.name, r.tag, text(r.args), r.isBreak, r.limit)
  }

  /** All orders of an object's keys give the same header. */
  ghost predicate OneHeader(m: map<string, Value>, text: Value -> string) {
    forall f, g | Lists(f, m) && Lists(g, m) ::
      HeaderOf(Finish(TakeAll(f)), text) == HeaderOf(Finish(TakeAll(g)), text)
  }

  /** All orders give the same request, and the same header in the schema, exactly if at most one key names
      an application. */
  lemma OrderMattersExactlyIfAmbiguous(m: map<string, Value>, text: Value -> string)
    ensures OrderIndependent(m) <==> Unambiguous(m)
    ensures OneHeader(m, text) <==> Unambiguous(m)
  {
    if Unambiguous(m) {
      forall f, g | Lists(f, m) && Lists(g, m) ensures Finish(TakeAll(f)) == Finish(TakeAll(g)) {
        UnambiguousIsDescribed(f, m);
        UnambiguousIsDescribed(g, m);
      }
    } else {
      var a, b :| a in m && b in m && IsName(a) && IsName(b) && a != b;
      var f := ListsFrom(m, a);
      var g := ListsFrom(m, b);
      FirstNameWins(f, 0);
      FirstNameWins(g, 0);
    }
  }

  /** An object with no application and a true `break` is the break application. */
  lemma LoneBreak(fields: seq<Field>, m: map<string, Value>)
    requires Lists(fields, m) && "break" in m && m["break"] == Bool(true)
    requires forall k | k in m :: !IsName(k)
    ensures Finish(TakeAll(fields)).name == "break" && Finish(TakeAll(fields)).isBreak
  {
    UnambiguousIsDescribed(fields, m);
  }

  // ----- every part of the request, read off the object -----

  /** `v` is a limit of `n` dispatches that fails over to `f`. */
  predicate IsLimit(v: Value, n: nat, f: string) {
    && v.Object? && "max" in v.fields && "failover" in v.fields
    && v.fields["max"].Number? && v.fields["max"].r > 0.0 && n == v.fields["max"].r.Floor % 0x1_0000_0000
    && v.fields["failover"] == Text(f) && f != ""
  }

  predicate IsTrace(v: Value, name: string) {
    v.Object? && "name" in v.fields && v.fields["name"] == Text(name) && name != ""
  }

  predicate IsTrue(m: map<string, Value>, k: string) {
    k in m && m[k] == Bool(true)
  }

  ghost predicate LimitMeans(l: Option<Schema.Limit>, m: map<string, Value>) {
    forall n: nat, f: string ::
      l == Some(Schema.Limit(n, f)) <==> "limit" in m && IsLimit(m["limit"], n, f)
  }

  ghost predicate TraceMeans(t: Option<string>, m: map<string, Value>) {
    forall name: string :: t == Some(name) <==> "trace" in m && IsTrace(m["trace"], name)
  }

  ghost predicate TagMeans(t: string, m: map<string, Value>) {
    if "tag" !in m then t == ""
    else match m["tag"]
         case Text(s) => t == s
         case Int(n) => t == Itoa(n)
         case _ => t == ""
  }

  /** The reserved keys of object `m` say that the request is `t`. */
  ghost predicate PartsMean(t: Parsed, m: map<string, Value>) {
    && t.debugId == (if "_id" in m && m["_id"].Text? then m["_id"].s else "")
    && TagMeans(t.tag, m)
    && (t.isBreak <==> IsTrue(m, "break")) && (t.isAsync <==> IsTrue(m, "async"))
    && LimitMeans(t.limit, m) && TraceMeans(t.trace, m)
  }

  lemma LimitIs(v: Value, m: map<string, Value>, l: Option<Schema.Limit>)
    requires "limit" !in m && LimitMeans(l, m)
    ensures LimitMeans(if v.Object? then LimitOf(v.fields) else l, m["limit" := v])
  {
    var m' := m["limit" := v];
    assert m'["limit"] == v;
    var given := if l.Some? then l.value else Schema.Limit(0, "");
    assert l != Some(Schema.Limit(given.max, given.failover));
    forall n: nat, f: string
      ensures (if v.Object? then LimitOf(v.fields) else l) == Some(Schema.Limit(n, f)) <==> IsLimit(v, n, f)
    {}
  }

  lemma TraceIs(v: Value, m: map<string, Value>, t: Option<string>)
    requires "trace" !in m && TraceMeans(t, m)
    ensures TraceMeans(if v.Object? then TraceOf(v.fields) else t, m["trace" := v])
  {
    var m' := m["trace" := v];
    assert m'["trace"] == v;
  }

  lemma OthersMean(t: Parsed, m: map<string, Value>, k: string, v: Value)
    requires PartsMean(t, m) && k !in m
    ensures k != "limit" ==> LimitMeans(t.limit, m[k := v])
    ensures k != "trace" ==> TraceMeans(t.trace, m[k := v])
    ensures k != "tag" ==> TagMeans(t.tag, m[k := v])
  {
    hide IsLimit, IsTrace, Itoa;
  }

  lemma TakeMeans(t: Parsed, m: map<string, Value>, k: string, v: Value)
    requires PartsMean(t, m) && k !in m
    ensures PartsMean(Take(t, k, v), m[k := v])
  {
    OthersMean(t, m, k, v);
    if k == "limit" {
      LimitIs(v, m, t.limit);
      hide LimitMeans, TraceMeans, TagMeans, LimitOf;
    } else if k == "trace" {
      TraceIs(v, m, t.trace);
      hide LimitMeans, TraceMeans, TagMeans, TraceOf;
    } else if k == "tag" {
      hide LimitMeans, TraceMeans, Itoa;
    } else {
      hide LimitMeans, TraceMeans, TagMeans;
    }
  }

  lemma {:induction false} TakeAllMeans(fields: seq<Field>)
    requires DistinctKeys(fields)
    ensures PartsMean(TakeAll(fields), AsMap(fields))
  {
    if fields != [] {
      var front, last := fields[..|fields| - 1], fields[|fields| - 1];
      AsMapKeys(front);
      TakeAllMeans(front);
      hide PartsMean, Take;
      TakeMeans(TakeAll(front), AsMap(front), last.key, last.value);
    }
  }

  ghost predicate HasName(m: map<string, Value>) {
    exists k :: k in m && IsName(k)
  }

  /** The application and its arguments. */
  ghost predicate NameMeans(t: Parsed, m: map<string, Value>) {
    if HasName(m) then t.name in m && IsName(t.name) && t.args == m[t.name]
    else t.name == "" && t.args == (if "" in m then m[""] else Null)
  }

  lemma HasNameNow(m: map<string, Value>, k: string, v: Value)
    ensures HasName(m[k := v]) <==> HasName(m) || IsName(k)
  {
    hide IsName;
    var m' := m[k := v];
    assert k in m';
    if HasName(m) {
      var j :| j in m && IsName(j);
      assert j in m';
    }
  }

  lemma TakeNames(t: Parsed, m: map<string, Value>, k: string, v: Value)
    requires NameMeans(t, m) && k !in m
    ensures NameMeans(Take(t, k, v), m[k := v])
  {
    HasNameNow(m, k, v);
    hide HasName, TagOf, LimitOf, TraceOf, Flag;
    if t.name != "" {
      assert t.name != k;
    }
  }

  lemma {:induction false} TakeAllNames(fields: seq<Field>)
    requires DistinctKeys(fields)
    ensures NameMeans(TakeAll(fields), AsMap(fields))
  {
    if fields != [] {
      var front, last := fields[..|fields| - 1], fields[|fields| - 1];
      AsMapKeys(front);
      TakeAllNames(front);
      hide NameMeans, Take;
      TakeNames(TakeAll(front), AsMap(front), last.key, last.value);
    }
  }

  /** Every object, in every order of its keys, even if it is ambiguous: all parts of the request but the
      application are what the reserved keys say, and the application is one of those the object names, with
      its value as arguments; an object that names none is a `break` if it is flagged so, and has no name
      otherwise. */
  lemma RequestMeans(fields: seq<Field>, m: map<string, Value>)
    requires Lists(fields, m)
    ensures var t := Finish(TakeAll(fields));
            && PartsMean(t, m)
            && if HasName(m) then t.name in m && IsName(t.name) && t.args == m[t.name]
               else t.name == (if IsTrue(m, "break") then "break" else "")
  {
    TakeAllMeans(fields);
    TakeAllNames(fields);
  }

  // ----- decimal numbers -----

  predicate IsDigit(c: char) {
    '0' <= c <= '9'
  }

  predicate Digits(s: string) {
    s != "" && forall i | 0 <= i < |s| :: IsDigit(s[i])
  }

  /** The number that a row of digits stands for. */
  function ReadDigits(s: string): int {
    if s == "" then 0 else 10 * ReadDigits(s[..|s| - 1]) + (s[|s| - 1] as int - '0' as int)
  }

  function ReadDecimal(s: string): int {
    if s != "" && s[0] == '-' then -ReadDigits(s[1..]) else ReadDigits(s)
  }

  lemma {:induction false} ItoaDigits(n: nat)
    ensures Digits(Itoa(n)) && ReadDigits(Itoa(n)) == n && (n > 0 ==> Itoa(n)[0] != '0') && (n == 0 ==> Itoa(n) == "0")
  {
    if n >= 10 {
      ItoaDigits(n / 10);
      ItoaDigits(n % 10);
      var a, b := Itoa(n / 10), Itoa(n % 10);
      assert |b| == 1 && (a + b)[..|a| + |b| - 1] == a;
    } else {
      assert Itoa(n)[..0] == "";
    }
  }

  /** A number written as a tag is read back, and is written without leading zeros. */
  lemma ItoaReads(n: int)
    ensures ReadDecimal(Itoa(n)) == n
    ensures var digits := if n < 0 then Itoa(n)[1..] else Itoa(n);
            && (n < 0 <==> Itoa(n)[0] == '-') && Digits(digits) && (digits[0] == '0' ==> n == 0 && digits == "0")
  {
    if n < 0 {
      ItoaDigits(-n);
      assert Itoa(n)[1..] == Itoa(-n);
    } else {
      ItoaDigits(n);
    }
  }
}
