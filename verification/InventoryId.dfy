/**
 Flux inventory ids: the four fields of an object joined by underscores, with a colon in the
 name written as two underscores.  The printer's format is fixed by Flux; the parser here
 must undo it.
 */
module InventoryId {
  import opened Wrappers
  import opened Fields

  datatype ObjMetadata = ObjMetadata(name: string, namespace: string, group: string, kind: string)

  // ---------- String primitives ----------

  /** Index of the first underscore, or -1. */
  function FirstIndex(s: string): (i: int)
    ensures -1 <= i < |s|
    ensures i >= 0 ==> s[i] == '_' && Plain(s[..i])
    ensures i == -1 ==> Plain(s)
  {
    if s == [] then -1
    else if s[0] == '_' then 0
    else
      var i := FirstIndex(s[1..]);
      assert i >= 0 ==> s[..i + 1] == [s[0]] + s[1..][..i];
      assert s == [s[0]] + s[1..];
      if i == -1 then -1 else i + 1
  }

  /** Index of the last underscore, or -1. */
  function LastIndex(s: string): (i: int)
    ensures -1 <= i < |s|
    ensures i >= 0 ==> s[i] == '_' && Plain(s[i + 1..])
    ensures i == -1 ==> Plain(s)
  {
    if s == [] then -1
    else
      var n := |s| - 1;
      assert s == s[..n] + [s[n]];
      if s[n] == '_' then n
      else
        var i := LastIndex(s[..n]);
        assert i >= 0 ==> s[i + 1..] == s[..n][i + 1..] + [s[n]];
        i
  }

  /** What stands before and after the first underscore, if there is one. */
  function SplitFirst(s: string): (r: Option<(string, string)>)
    ensures r.None? <==> Plain(s)
    ensures r.Some? ==> s == r.value.0 + "_" + r.value.1 && Plain(r.value.0)
  {
    var i := FirstIndex(s);
    if i == -1 then None else Some((s[..i], s[i + 1..]))
  }

  /** What stands before and after the last underscore, if there is one. */
  function SplitLast(s: string): (r: Option<(string, string)>)
    ensures r.None? <==> Plain(s)
    ensures r.Some? ==> s == r.value.0 + "_" + r.value.1 && Plain(r.value.1)
  {
    var i := LastIndex(s);
    if i == -1 then None else Some((s[..i], s[i + 1..]))
  }

  /** Replace "__" by ":" from left to right, without overlap. */
  function DecodeColons(s: string): string {
    if s == [] then []
    else if |s| >= 2 && s[0] == '_' && s[1] == '_' then ":" + DecodeColons(s[2..])
    else [s[0]] + DecodeColons(s[1..])
  }

  function EncodeColons(s: string): string {
    if s == [] then []
    else (if s[0] == ':' then "__" else [s[0]]) + EncodeColons(s[1..])
  }

  // ---------- Printing and parsing ----------

  function Print(m: ObjMetadata): string {
    m.namespace + "_" + EncodeColons(m.name) + "_" + m.group + "_" + m.kind
  }

  /** The id cut at its first and its last two underscores; the name is still encoded. */
  function Cut(s: string): Option<ObjMetadata> {
    match SplitFirst(s)
    case None => None
    case Some((namespace, afterNamespace)) =>
      match SplitLast(afterNamespace)
      case None => None
      case Some((beforeKind, kind)) =>
        match SplitLast(beforeKind)
        case None => None
        case Some((name, group)) => Some(ObjMetadata(name, namespace, group, kind))
  }

  function ParseObjMetadata(s: string): Option<ObjMetadata> {
    match Cut(s)
    case None => None
    case Some(raw) =>
      var name := DecodeColons(raw.name);
      if !Plain(name) then None else Some(raw.(name := name))
  }

  function Join(raw: ObjMetadata): string {
    raw.namespace + "_" + raw.name + "_" + raw.group + "_" + raw.kind
  }

  predicate PlainAround(raw: ObjMetadata) {
    Plain(raw.namespace) && Plain(raw.group) && Plain(raw.kind)
  }

  lemma {:induction false} SplitFirstOf(a: string, b: string)
    requires Plain(a)
    ensures SplitFirst(a + "_" + b) == Some((a, b))
  {
    var s := a + "_" + b;
    assert s[|a|] == '_';
    var (c, d) := SplitFirst(s).value;
    FirstFieldUnique(a, b, c, d);
  }

  lemma {:induction false} SplitLastOf(a: string, b: string)
    requires Plain(b)
    ensures SplitLast(a + "_" + b) == Some((a, b))
  {
    var s := a + "_" + b;
    assert s[|a|] == '_';
    var (c, d) := SplitLast(s).value;
    LastFieldUnique(a, b, c, d);
  }

  /** Cutting undoes joining. */
  lemma {:induction false} CutOfJoin(raw: ObjMetadata)
    requires PlainAround(raw)
    ensures Cut(Join(raw)) == Some(raw)
  {
    var beforeKind := raw.name + "_" + raw.group;
    var afterNamespace := beforeKind + "_" + raw.kind;
    assert Join(raw) == raw.namespace + "_" + afterNamespace;
    SplitFirstOf(raw.namespace, afterNamespace);
    SplitLastOf(beforeKind, raw.kind);
    SplitLastOf(raw.name, raw.group);
  }

  lemma {:induction false} Reassociate(a: string, b: string, c: string)
    ensures a + (b + "_" + c) == a + b + "_" + c
  {
  }

  /** Joining undoes cutting. */
  lemma {:induction false} JoinOfCut(s: string)
    requires Cut(s).Some?
    ensures Join(Cut(s).value) == s && PlainAround(Cut(s).value)
  {
    var (namespace, afterNamespace) := SplitFirst(s).value;
    var (beforeKind, kind) := SplitLast(afterNamespace).value;
    var (name, group) := SplitLast(beforeKind).value;
    var prefix := namespace + "_";
    Reassociate(prefix, name, group);
    Reassociate(prefix, beforeKind, kind);
  }

  function Underscores(s: string): nat {
    if s == [] then 0 else (if s[0] == '_' then 1 else 0) + Underscores(s[1..])
  }

  lemma {:induction false} UnderscoresConcat(a: string, b: string)
    ensures Underscores(a + b) == Underscores(a) + Underscores(b)
  {
    if a == [] {
      assert a + b == b;
    } else {
      UnderscoresConcat(a[1..], b);
      assert (a + b)[1..] == a[1..] + b;
    }
  }

  lemma {:induction false} PlainHasNone(s: string)
    ensures Plain(s) <==> Underscores(s) == 0
  {
    if s == [] {
    } else {
      PlainHasNone(s[1..]);
      assert s == [s[0]] + s[1..];
    }
  }

  lemma {:induction false} UnderscoresAfterSplit(s: string)
    ensures SplitFirst(s).None? <==> Underscores(s) == 0
    ensures SplitLast(s).None? <==> Underscores(s) == 0
    ensures SplitFirst(s).Some? ==> Underscores(SplitFirst(s).value.1) == Underscores(s) - 1
    ensures SplitLast(s).Some? ==> Underscores(SplitLast(s).value.0) == Underscores(s) - 1
  {
    PlainHasNone(s);
    if SplitFirst(s).Some? {
      var (a, b) := SplitFirst(s).value;
      UnderscoresConcat(a + "_", b);
      UnderscoresConcat(a, "_");
      PlainHasNone(a);
      var (c, d) := SplitLast(s).value;
      UnderscoresConcat(c + "_", d);
      UnderscoresConcat(c, "_");
      PlainHasNone(d);
    }
  }

  /** An id can be cut exactly if it has at least three underscores. */
  lemma {:induction false} CutsIff(s: string)
    ensures Cut(s).Some? <==> Underscores(s) >= 3
  {
    UnderscoresAfterSplit(s);
    if SplitFirst(s).Some? {
      var rest := SplitFirst(s).value.1;
      UnderscoresAfterSplit(rest);
      if SplitLast(rest).Some? {
        UnderscoresAfterSplit(SplitLast(rest).value.0);
      }
    }
  }

  // ---------- The name's transcoding ----------

  /** The characters from `i` up to `j` are a whole run of underscores. */
  predicate IsRun(s: string, i: int, j: int) {
    && 0 <= i < j <= |s|
    && (forall k :: i <= k < j ==> s[k] == '_')
    && (i == 0 || s[i - 1] != '_')
    && (j == |s| || s[j] != '_')
  }

  /** Every maximal run of underscores has even length. */
  ghost predicate EvenRuns(s: string) {
    forall i, j :: IsRun(s, i, j) ==> (j - i) % 2 == 0
  }

  /** Dropping a first character that is no underscore keeps the runs. */
  lemma {:induction false} RunsAfterPlain(s: string)
    requires s != [] && s[0] != '_'
    ensures EvenRuns(s) <==> EvenRuns(s[1..])
  {
    var t := s[1..];
    forall i, j | IsRun(t, i, j) ensures IsRun(s, i + 1, j + 1) {
      assert forall k :: i + 1 <= k < j + 1 ==> s[k] == t[k - 1];
    }
    forall i, j | IsRun(s, i, j) ensures IsRun(t, i - 1, j - 1) {
      assert i > 0;
      assert forall k :: i - 1 <= k < j - 1 ==> t[k] == s[k + 1];
    }
  }

  /** Dropping two underscores at the front shortens the first run by two, or removes it. */
  lemma {:induction false} RunsAfterPair(s: string)
    requires |s| >= 2 && s[0] == '_' && s[1] == '_'
    ensures EvenRuns(s) <==> EvenRuns(s[2..])
  {
    var t := s[2..];
    if EvenRuns(s) {
      forall i, j | IsRun(t, i, j) ensures (j - i) % 2 == 0 {
        assert forall k :: i + 2 <= k < j + 2 ==> s[k] == t[k - 2];
        if i == 0 {
          assert IsRun(s, 0, j + 2);
        } else {
          assert IsRun(s, i + 2, j + 2);
        }
      }
    }
    if EvenRuns(t) {
      forall i, j | IsRun(s, i, j) ensures (j - i) % 2 == 0 {
        assert forall k :: i <= k + 2 < j && k >= 0 ==> t[k] == s[k + 2];
        if i == 0 {
          assert j > 2 ==> IsRun(t, 0, j - 2);
        } else {
          assert s[1] == '_';
          assert IsRun(t, i - 2, j - 2);
        }
      }
    }
  }

  /** Decoding leaves no underscore exactly when all runs are even. */
  lemma {:induction false} DecodesPlainIff(s: string)
    ensures Plain(DecodeColons(s)) <==> EvenRuns(s)
  {
    if s == [] {
    } else if s[0] != '_' {
      DecodesPlainIff(s[1..]);
      RunsAfterPlain(s);
    } else if |s| >= 2 && s[1] == '_' {
      DecodesPlainIff(s[2..]);
      RunsAfterPair(s);
    } else {
      assert DecodeColons(s)[0] == '_';
      assert IsRun(s, 0, 1);
    }
  }

  lemma {:induction false} DecodeOfEncode(s: string)
    requires Plain(s)
    ensures DecodeColons(EncodeColons(s)) == s
  {
    if s == [] {
    } else {
      assert s == [s[0]] + s[1..];
      DecodeOfEncode(s[1..]);
      var rest := EncodeColons(s[1..]);
      if s[0] == ':' {
        assert ("__" + rest)[2..] == rest;
      } else {
        assert ([s[0]] + rest)[1..] == rest;
      }
    }
  }

  /** Encoding gives a decoded name back exactly if it had no literal colon. */
  lemma {:induction false} EncodeOfDecode(s: string)
    requires Plain(DecodeColons(s))
    ensures EncodeColons(DecodeColons(s)) == s <==> ':' !in s
  {
    if s == [] {
    } else {
      var decoded := DecodeColons(s);
      if |s| >= 2 && s[0] == '_' && s[1] == '_' {
        assert decoded[1..] == DecodeColons(s[2..]);
        EncodeOfDecode(s[2..]);
        assert s == "__" + s[2..];
      } else {
        assert decoded[0] == s[0] && decoded[1..] == DecodeColons(s[1..]);
        EncodeOfDecode(s[1..]);
        assert s == [s[0]] + s[1..];
        if s[0] != ':' {
          assert EncodeColons(decoded)[1..] == EncodeColons(decoded[1..]);
        } else {
          assert EncodeColons(decoded)[0] == '_';
        }
      }
    }
  }

  // ---------- The parser against the printer ----------

  /** Parsing undoes printing for all underscore-free fields, empty ones and colons included. */
  lemma {:induction false} ParseOfPrint(m: ObjMetadata)
    requires Plain(m.name) && PlainAround(m)
    ensures ParseObjMetadata(Print(m)) == Some(m)
  {
    var raw := m.(name := EncodeColons(m.name));
    assert Print(m) == Join(raw);
    CutOfJoin(raw);
    DecodeOfEncode(m.name);
  }

  /** Exactly which ids parse. */
  lemma {:induction false} ParsesIff(s: string)
    ensures ParseObjMetadata(s).Some? <==>
            Underscores(s) >= 3 && Cut(s).Some? && EvenRuns(Cut(s).value.name)
  {
    CutsIff(s);
    if Cut(s).Some? {
      DecodesPlainIff(Cut(s).value.name);
    }
  }

  /** Printing gives a parsed id back exactly if its name part has no literal colon. */
  lemma {:induction false} PrintOfParse(s: string)
    requires ParseObjMetadata(s).Some?
    ensures Print(ParseObjMetadata(s).value) == s <==> ':' !in Cut(s).value.name
  {
    JoinOfCut(s);
    var raw := Cut(s).value;
    var name := EncodeColons(DecodeColons(raw.name));
    EncodeOfDecode(raw.name);
    var printed := raw.(name := name);
    assert Print(ParseObjMetadata(s).value) == Join(printed);
    CutOfJoin(printed);
  }

  // ---------- Inventory entries ----------

  datatype Field = Absent | Text(text: string) | WrongType

  datatype Entry = Malformed | Item(id: Field, version: Field)

  predicate WellFormed(e: Entry) {
    e.Item? && !e.id.WrongType? && !e.version.WrongType?
  }

  function TextOf(f: Field): string {
    if f.Text? then f.text else ""
  }

  /** The version of the last entry with this id. */
  function LastVersion(entries: seq<Entry>, id: string): Option<string> {
    if entries == [] then None
    else
      var last := entries[|entries| - 1];
      if last.Item? && TextOf(last.id) == id then Some(TextOf(last.version))
      else LastVersion(entries[..|entries| - 1], id)
  }

  /** Versions by id; a later entry for an id wins. */
  function ParsedItems(entries: seq<Entry>): Option<map<string, string>> {
    if entries == [] then Some(map[])
    else
      var before, last := ParsedItems(entries[..|entries| - 1]), entries[|entries| - 1];
      if before.None? || !WellFormed(last) then None
      else Some(before.value[TextOf(last.id) := TextOf(last.version)])
  }

  lemma {:induction false} UnreadableStaysUnreadable(entries: seq<Entry>, n: nat)
    requires n <= |entries| && ParsedItems(entries[..n]).None?
    ensures ParsedItems(entries).None?
  {
    if n < |entries| {
      assert entries[..|entries| - 1][..n] == entries[..n];
      UnreadableStaysUnreadable(entries[..|entries| - 1], n);
    } else {
      assert entries[..n] == entries;
    }
  }

  method ParseInventoryObjects(entries: seq<Entry>) returns (r: Option<map<string, string>>)
    ensures r == ParsedItems(entries)
    ensures r.Some? <==> forall i :: 0 <= i < |entries| ==> WellFormed(entries[i])
    ensures r.Some? ==>
              forall id :: if id in r.value then LastVersion(entries, id) == Some(r.value[id])
                           else LastVersion(entries, id) == None
  {
    var resources: map<string, string> := map[];
    for i := 0 to |entries|
      invariant Some(resources) == ParsedItems(entries[..i])
      invariant forall k :: 0 <= k < i ==> WellFormed(entries[k])
      invariant forall id :: if id in resources then LastVersion(entries[..i], id) == Some(resources[id])
                             else LastVersion(entries[..i], id) == None
    {
      var item := entries[i];
      assert entries[..i + 1][..i] == entries[..i];
      if item.Malformed? || item.id.WrongType? || item.version.WrongType? {
        UnreadableStaysUnreadable(entries, i + 1);
        return None;
      }
      resources := resources[TextOf(item.id) := TextOf(item.version)];
    }
    assert entries[..|entries|] == entries;
    return Some(resources);
  }
}
