/** `git status --porcelain=v2 -z --branch` printed and parsed back (packages/git/src/source-control.ts). */
module Porcelain {
  import opened Common

  datatype Kind = Ordinary | Renamed | Unmerged | Untracked

  /** A parsed record; a field Git did not print is none. */
  datatype Entry = Entry(kind: Kind, xy: Option<string>, path: Option<string>, origPath: Option<string>, raw: string)

  datatype Branch = Branch(oid: Option<string>, head: Option<string>, detached: bool, upstream: Option<string>, ahead: Option<nat>, behind: Option<nat>)

  datatype Status = Status(branch: Branch, entries: seq<Entry>)

  const NO_BRANCH := Branch(None, None, false, None, None, None)

  const NUL: char := 0 as char

  // ----- text -----

  /** The parts of a text between NULs. */
  function Records(raw: string): seq<string>
    decreases |raw|
  {
    if NUL in raw then
      CutShorter(raw, NUL);
      [BeforeFirst(raw, NUL)] + Records(AfterFirst(raw, NUL))
    else [raw]
  }

  lemma {:induction false} CutShorter(s: string, c: char)
    requires c in s
    ensures |AfterFirst(s, c)| < |s|
  {
    if s[0] != c {
      CutShorter(s[1..], c);
    }
  }

  /** Each record followed by a NUL. */
  function Terminated(records: seq<string>): string {
    if records == [] then "" else records[0] + [NUL] + Terminated(records[1..])
  }

  lemma {:induction false} RecordsBack(records: seq<string>)
    requires forall r :: r in records ==> NUL !in r
    ensures Records(Terminated(records)) == records + [""]
  {
    if records == [] {
      assert [] + [""] == [""];
    } else {
      CutAt(records[0], NUL, Terminated(records[1..]));
      RecordsBack(records[1..]);
      assert [records[0]] + (records[1..] + [""]) == records + [""];
    }
  }

  // ----- numbers -----

  predicate Digit(c: char) {
    '0' <= c <= '9'
  }

  predicate Digits(s: string) {
    s != "" && forall i :: 0 <= i < |s| ==> Digit(s[i])
  }

  function Number(s: string): nat
    requires forall i :: 0 <= i < |s| ==> Digit(s[i])
  {
    if s == "" then 0
    else
      assert Digit(s[|s| - 1]);
      10 * Number(s[..|s| - 1]) + (s[|s| - 1] as int - '0' as int)
  }

  function Decimal(n: nat): string {
    (if n < 10 then "" else Decimal(n / 10)) + [('0' as int + n % 10) as char]
  }

  lemma {:induction false} DecimalBack(n: nat)
    ensures Digits(Decimal(n)) && Number(Decimal(n)) == n
  {
    var last := [('0' as int + n % 10) as char];
    if n < 10 {
      assert Decimal(n) == last && last[..0] == "";
    } else {
      DecimalBack(n / 10);
      var s := Decimal(n);
      assert s[..|s| - 1] == Decimal(n / 10) && s[|s| - 1] == last[0];
    }
  }

  /** `+<ahead> -<behind>`. */
  function AheadBehind(value: string): Option<(nat, nat)> {
    if value == "" || value[0] != '+' then None
    else
      var ahead, rest := BeforeFirst(value[1..], ' '), AfterFirst(value[1..], ' ');
      if ' ' in value && Digits(ahead) && rest != "" && rest[0] == '-' && Digits(rest[1..]) then Some((Number(ahead), Number(rest[1..])))
      else None
  }

  lemma AheadBehindBack(a: nat, b: nat)
    ensures AheadBehind("+" + Decimal(a) + " -" + Decimal(b)) == Some((a, b))
  {
    hide Decimal, Number;
    DecimalBack(a);
    DecimalBack(b);
    var value := "+" + Decimal(a) + " -" + Decimal(b);
    assert ' ' !in Decimal(a) by { assert forall i :: 0 <= i < |Decimal(a)| ==> Digit(Decimal(a)[i]); }
    CutAt(Decimal(a), ' ', "-" + Decimal(b));
    assert value[1..] == Decimal(a) + [' '] + ("-" + Decimal(b));
    assert ("-" + Decimal(b))[1..] == Decimal(b);
    assert ' ' in value by { assert value[1 + |Decimal(a)|] == ' '; }
  }

  // ----- parsing -----

  /** At most `count` fields, each ended by a space, then whatever is left as one more. */
  function SplitFields(record: string, count: nat): seq<string>
    decreases count
  {
    if count == 0 || ' ' !in record then [record] else [BeforeFirst(record, ' ')] + SplitFields(AfterFirst(record, ' '), count - 1)
  }

  method ReadFields(record: string, count: nat) returns (fields: seq<string>)
    ensures fields == SplitFields(record, count)
  {
    fields := [];
    var rest := record;
    var n := 0;
    while n < count
      invariant n <= count && SplitFields(record, count) == fields + SplitFields(rest, count - n)
    {
      if ' ' !in rest {
        break;
      }
      fields, rest := fields + [BeforeFirst(rest, ' ')], AfterFirst(rest, ' ');
      n := n + 1;
    }
    fields := fields + [rest];
  }

  function Spaces(s: string): nat {
    if s == "" then 0 else (if s[0] == ' ' then 1 else 0) + Spaces(s[1..])
  }

  function JoinedBySpaces(fields: seq<string>): string {
    if fields == [] then "" else if |fields| == 1 then fields[0] else fields[0] + " " + JoinedBySpaces(fields[1..])
  }

  /** The fields joined by spaces are the record; all but the last hold no space, and there are as many as asked for and there are spaces. */
  lemma {:induction false} FieldsExactly(record: string, count: nat)
    ensures var fields := SplitFields(record, count);
            && JoinedBySpaces(fields) == record
            && |fields| == 1 + (if Spaces(record) < count then Spaces(record) else count)
            && forall i :: 0 <= i < |fields| - 1 ==> ' ' !in fields[i]
    decreases count
  {
    SpacesAre(record);
    if count > 0 && ' ' in record {
      var first, rest := BeforeFirst(record, ' '), AfterFirst(record, ' ');
      FirstSpace(record);
      FieldsExactly(rest, count - 1);
      var fields := SplitFields(record, count);
      assert fields[0] == first && fields[1..] == SplitFields(rest, count - 1);
    }
  }

  lemma {:induction false} SpacesAre(s: string)
    ensures Spaces(s) == 0 <==> ' ' !in s
  {
    if s != "" {
      SpacesAre(s[1..]);
      assert s == [s[0]] + s[1..];
    }
  }

  lemma {:induction false} FirstSpace(s: string)
    requires ' ' in s
    ensures ' ' !in BeforeFirst(s, ' ') && BeforeFirst(s, ' ') + " " + AfterFirst(s, ' ') == s
    ensures Spaces(s) == 1 + Spaces(AfterFirst(s, ' '))
  {
    if s[0] != ' ' {
      assert s == [s[0]] + s[1..];
      FirstSpace(s[1..]);
    }
  }

  function Field(fields: seq<string>, i: nat): Option<string> {
    if i < |fields| then Some(fields[i]) else None
  }

  /** What a header's key and value say of the branch. */
  function Keyed(branch: Branch, key: string, value: string): Branch {
    if key == "branch.oid" then branch.(oid := if value == "(initial)" then None else Some(value))
    else if key == "branch.head" then
      if value == "(detached)" then branch.(detached := true, head := None) else branch.(detached := false, head := Some(value))
    else if key == "branch.upstream" then branch.(upstream := Some(value))
    else if key == "branch.ab" then
      var ab := AheadBehind(value);
      if ab.Some? then branch.(ahead := Some(ab.value.0), behind := Some(ab.value.1)) else branch
    else branch
  }

  function Header(branch: Branch, record: string): Branch {
    var text := if |record| >= 2 then record[2..] else "";
    Keyed(branch, BeforeFirst(text, ' '), AfterFirst(text, ' '))
  }

  function PathField(kind: Kind): nat {
    match kind
    case Ordinary => 8
    case Renamed => 9
    case Unmerged => 10
    case Untracked => 1
  }

  /** The entry of a record of a known kind, with the record after it for a rename. */
  function EntryOf(kind: Kind, record: string, next: Option<string>): Entry {
    if kind == Untracked then Entry(Untracked, Some("??"), Some(if |record| >= 2 then record[2..] else ""), None, record)
    else
      var fields := SplitFields(record, PathField(kind));
      if kind == Renamed then
        Entry(Renamed, Field(fields, 1), Field(fields, 9), next, record + [NUL] + if next.Some? then next.value else "")
      else Entry(kind, Field(fields, 1), Field(fields, PathField(kind)), None, record)
  }

  function KindOf(c: char): Option<Kind> {
    match c
    case '?' => Some(Untracked)
    case '1' => Some(Ordinary)
    case '2' => Some(Renamed)
    case 'u' => Some(Unmerged)
    case _ => None
  }

  function ParseFrom(status: Status, parts: seq<string>): Status
    decreases |parts|
  {
    if parts == [] then status
    else
      var record := parts[0];
      if record == "" then ParseFrom(status, parts[1..])
      else if "# " <= record then ParseFrom(status.(branch := Header(status.branch, record)), parts[1..])
      else
        var kind := KindOf(record[0]);
        if kind.None? then ParseFrom(status, parts[1..])
        else
          var next := if |parts| > 1 then Some(parts[1]) else None;
          var status' := status.(entries := status.entries + [EntryOf(kind.value, record, next)]);
          ParseFrom(status', if kind.value == Renamed && |parts| > 1 then parts[2..] else parts[1..])
  }

  /** A record that is empty, or begins like none of the kinds, is passed over; so is a header of another key. */
  lemma OthersPassedOver(status: Status, record: string, rest: seq<string>)
    ensures record == "" || (record[0] != '#' && record[0] != '?' && record[0] != '1' && record[0] != '2' && record[0] != 'u') ==>
              ParseFrom(status, [record] + rest) == ParseFrom(status, rest)
    ensures "# " <= record && BeforeFirst(record[2..], ' ') !in {"branch.oid", "branch.head", "branch.upstream", "branch.ab"} ==>
              ParseFrom(status, [record] + rest) == ParseFrom(status, rest)
  {
    assert ([record] + rest)[1..] == rest;
    PrefixAgrees("# ", record, 0);
  }

  function Parse(raw: string): Status {
    ParseFrom(Status(NO_BRANCH, []), Records(raw))
  }

  method ParsePorcelainV2(raw: string) returns (branch: Branch, entries: seq<Entry>)
    ensures Status(branch, entries) == Parse(raw)
  {
    hide Header, EntryOf, KindOf;
    branch, entries := NO_BRANCH, [];
    var parts := Records(raw);
    var i := 0;
    assert parts[0..] == parts;
    while i < |parts|
      invariant i <= |parts| && Parse(raw) == ParseFrom(Status(branch, entries), parts[i..])
    {
      var record := parts[i];
      assert parts[i..][1..] == parts[i + 1..];
      assert |parts[i..]| > 1 ==> parts[i..][2..] == parts[i + 2..] && parts[i..][1] == parts[i + 1];
      if record == "" {
      } else if "# " <= record {
        branch := Header(branch, record);
      } else {
        var kind := KindOf(record[0]);
        if kind.Some? {
          var next := if i + 1 < |parts| then Some(parts[i + 1]) else None;
          entries := entries + [EntryOf(kind.value, record, next)];
          if kind.value == Renamed && i + 1 < |parts| {
            i := i + 1;
          }
        }
      }
      i := i + 1;
    }
  }

  // ----- printing -----

  /** An entry as Git has it: its status letters, the fields between, and its path. */
  datatype Item = Item(kind: Kind, xy: string, fields: seq<string>, path: string, origPath: string)

  /** A branch as Git has it. */
  datatype Head = Head(oid: Option<string>, name: Option<string>, upstream: Option<string>, ab: Option<(nat, nat)>)

  function FieldCount(kind: Kind): nat {
    if kind == Untracked then 0 else PathField(kind) - 2
  }

  function KindChar(kind: Kind): string {
    match kind
    case Ordinary => "1"
    case Renamed => "2"
    case Unmerged => "u"
    case Untracked => "?"
  }

  predicate OneField(s: string) {
    ' ' !in s && NUL !in s
  }

  predicate ItemOk(e: Item) {
    && NUL !in e.path && NUL !in e.origPath
    && (e.kind != Renamed ==> e.origPath == "")
    && if e.kind == Untracked then e.xy == "??" && e.fields == []
       else OneField(e.xy) && |e.fields| == FieldCount(e.kind) && forall f :: f in e.fields ==> OneField(f)
  }

  predicate HeadOk(h: Head) {
    && (h.oid.Some? ==> h.oid.value != "(initial)" && NUL !in h.oid.value)
    && (h.name.Some? ==> h.name.value != "(detached)" && NUL !in h.name.value)
    && (h.upstream.Some? ==> NUL !in h.upstream.value)
  }

  function Spaced(fields: seq<string>, path: string): string {
    if fields == [] then path else fields[0] + " " + Spaced(fields[1..], path)
  }

  function RecordOf(e: Item): string {
    if e.kind == Untracked then "? " + e.path else Spaced([KindChar(e.kind), e.xy] + e.fields, e.path)
  }

  function ItemRecords(e: Item): seq<string> {
    if e.kind == Renamed then [RecordOf(e), e.origPath] else [RecordOf(e)]
  }

  function AllRecords(items: seq<Item>): seq<string> {
    if items == [] then [] else ItemRecords(items[0]) + AllRecords(items[1..])
  }

  function HeadRecords(h: Head): seq<string> {
    ["# branch.oid " + (if h.oid.Some? then h.oid.value else "(initial)"),
     "# branch.head " + (if h.name.Some? then h.name.value else "(detached)")]
    + (if h.upstream.Some? then ["# branch.upstream " + h.upstream.value] else [])
    + (if h.ab.Some? then ["# branch.ab " + ("+" + Decimal(h.ab.value.0) + " -" + Decimal(h.ab.value.1))] else [])
  }

  function Printed(h: Head, items: seq<Item>): string {
    Terminated(HeadRecords(h) + AllRecords(items))
  }

  function ItemEntry(e: Item): Entry {
    Entry(e.kind, Some(e.xy), Some(e.path), if e.kind == Renamed then Some(e.origPath) else None,
      if e.kind == Renamed then RecordOf(e) + [NUL] + e.origPath else RecordOf(e))
  }

  function Entries(items: seq<Item>): seq<Entry> {
    if items == [] then [] else [ItemEntry(items[0])] + Entries(items[1..])
  }

  function BranchOf(h: Head): Branch {
    Branch(h.oid, h.name, h.name.None?, h.upstream,
      if h.ab.Some? then Some(h.ab.value.0) else None, if h.ab.Some? then Some(h.ab.value.1) else None)
  }

  // ----- round trip -----

  /** Fields without spaces, then a path with any: the path is the last field, whole. */
  lemma {:induction false} FieldsBack(fields: seq<string>, path: string)
    requires forall f :: f in fields ==> ' ' !in f
    ensures SplitFields(Spaced(fields, path), |fields|) == fields + [path]
  {
    if fields == [] {
      assert [] + [path] == [path];
    } else {
      assert ' ' !in fields[0];
      CutAt(fields[0], ' ', Spaced(fields[1..], path));
      assert fields[0] + " " + Spaced(fields[1..], path) == fields[0] + [' '] + Spaced(fields[1..], path);
      FieldsBack(fields[1..], path);
      assert [fields[0]] + (fields[1..] + [path]) == fields + [path];
    }
  }

  lemma RecordStart(e: Item)
    requires ItemOk(e)
    ensures RecordOf(e) != "" && !("# " <= RecordOf(e)) && KindOf(RecordOf(e)[0]) == Some(e.kind)
  {
    var fields := [KindChar(e.kind), e.xy] + e.fields;
    assert e.kind != Untracked ==> RecordOf(e)[0] == KindChar(e.kind)[0];
    assert RecordOf(e)[0] != '#';
  }

  lemma ItemBack(e: Item, next: Option<string>)
    requires ItemOk(e) && (e.kind == Renamed ==> next == Some(e.origPath))
    ensures EntryOf(e.kind, RecordOf(e), next) == ItemEntry(e)
  {
    hide SplitFields, Spaced;
    if e.kind == Untracked {
      assert RecordOf(e)[2..] == e.path;
    } else {
      var fields := [KindChar(e.kind), e.xy] + e.fields;
      forall f | f in fields ensures ' ' !in f {
        assert f == KindChar(e.kind) || f == e.xy || f in e.fields;
      }
      FieldsBack(fields, e.path);
      assert |fields| == PathField(e.kind);
      assert (fields + [e.path])[1] == e.xy && (fields + [e.path])[|fields|] == e.path;
    }
  }

  lemma OneItem(status: Status, e: Item, rest: seq<string>)
    requires ItemOk(e)
    ensures ParseFrom(status, ItemRecords(e) + rest) == ParseFrom(status.(entries := status.entries + [ItemEntry(e)]), rest)
  {
    hide ItemOk, EntryOf, RecordOf, ItemEntry, KindOf, Header;
    var parts := ItemRecords(e) + rest;
    RecordStart(e);
    assert parts[0] == RecordOf(e);
    if e.kind == Renamed {
      assert parts[1] == e.origPath && parts[2..] == rest;
    } else {
      assert parts[1..] == rest;
    }
    ItemBack(e, if |parts| > 1 then Some(parts[1]) else None);
  }

  lemma ItemsHead(e: Item, more: seq<Item>, entries: seq<Entry>)
    ensures AllRecords([e] + more) + [""] == ItemRecords(e) + (AllRecords(more) + [""])
    ensures entries + [ItemEntry(e)] + Entries(more) == entries + Entries([e] + more)
  {
    hide ItemRecords, ItemEntry;
    assert ([e] + more)[1..] == more;
  }

  lemma {:induction false} ItemsBack(status: Status, items: seq<Item>)
    requires forall e :: e in items ==> ItemOk(e)
    ensures ParseFrom(status, AllRecords(items) + [""]) == status.(entries := status.entries + Entries(items))
    decreases |items|
  {
    hide ItemOk, ItemRecords, ItemEntry, ParseFrom, AllRecords, Entries;
    if items == [] {
      NoItems(status);
    } else {
      var e, more := items[0], items[1..];
      assert items == [e] + more;
      ItemsHead(e, more, status.entries);
      OneItem(status, e, AllRecords(more) + [""]);
      ItemsBack(status.(entries := status.entries + [ItemEntry(e)]), more);
    }
  }

  lemma NoItems(status: Status)
    ensures ParseFrom(status, AllRecords([]) + [""]) == status.(entries := status.entries + Entries([]))
  {
    assert [] + [""] == [""];
    EmptyRecord(status);
    assert status.entries + [] == status.entries;
  }

  lemma EmptyRecord(status: Status)
    ensures ParseFrom(status, [""]) == status
  {
    assert [""][1..] == [];
    assert ParseFrom(status, []) == status;
  }

  /** A header record read: its key and its value. */
  lemma HeaderBack(branch: Branch, key: string, value: string)
    requires ' ' !in key
    ensures "# " <= "# " + key + " " + value && Header(branch, "# " + key + " " + value) == Keyed(branch, key, value)
  {
    hide Keyed;
    CutAt(key, ' ', value);
    var record := "# " + key + " " + value;
    assert record[2..] == key + [' '] + value;
  }

  lemma OneHeader(status: Status, record: string, rest: seq<string>)
    requires "# " <= record
    ensures ParseFrom(status, [record] + rest) == ParseFrom(status.(branch := Header(status.branch, record)), rest)
  {
    hide Header;
    assert ([record] + rest)[1..] == rest;
  }

  lemma OidBack(branch: Branch, oid: Option<string>)
    requires oid.Some? ==> oid.value != "(initial)"
    ensures "# " <= "# branch.oid " + (if oid.Some? then oid.value else "(initial)")
    ensures Header(branch, "# branch.oid " + (if oid.Some? then oid.value else "(initial)")) == branch.(oid := oid)
  {
    hide Header, AheadBehind;
    var value := if oid.Some? then oid.value else "(initial)";
    HeaderBack(branch, "branch.oid", value);
    assert "# branch.oid " == "# " + "branch.oid" + " ";
  }

  lemma NameBack(branch: Branch, name: Option<string>)
    requires name.Some? ==> name.value != "(detached)"
    ensures "# " <= "# branch.head " + (if name.Some? then name.value else "(detached)")
    ensures Header(branch, "# branch.head " + (if name.Some? then name.value else "(detached)")) == branch.(head := name, detached := name.None?)
  {
    hide Header, AheadBehind;
    var value := if name.Some? then name.value else "(detached)";
    HeaderBack(branch, "branch.head", value);
    assert "# branch.head " == "# " + "branch.head" + " ";
  }

  lemma UpstreamBack(branch: Branch, upstream: string)
    ensures "# " <= "# branch.upstream " + upstream
    ensures Header(branch, "# branch.upstream " + upstream) == branch.(upstream := Some(upstream))
  {
    hide Header, AheadBehind;
    HeaderBack(branch, "branch.upstream", upstream);
    assert "# branch.upstream " == "# " + "branch.upstream" + " ";
  }

  lemma AbBack(branch: Branch, a: nat, b: nat)
    ensures var record := "# branch.ab " + ("+" + Decimal(a) + " -" + Decimal(b));
            "# " <= record && Header(branch, record) == branch.(ahead := Some(a), behind := Some(b))
  {
    hide Header, Decimal, AheadBehind;
    var value := "+" + Decimal(a) + " -" + Decimal(b);
    AheadBehindBack(a, b);
    HeaderBack(branch, "branch.ab", value);
    assert "# branch.ab " == "# " + "branch.ab" + " ";
  }

  lemma HeadBack(h: Head, rest: seq<string>)
    requires HeadOk(h)
    ensures ParseFrom(Status(NO_BRANCH, []), HeadRecords(h) + rest) == ParseFrom(Status(BranchOf(h), []), rest)
  {
    hide Header, ParseFrom, Decimal;
    var oid := "# branch.oid " + (if h.oid.Some? then h.oid.value else "(initial)");
    var name := "# branch.head " + (if h.name.Some? then h.name.value else "(detached)");
    var upstream := if h.upstream.Some? then ["# branch.upstream " + h.upstream.value] else [];
    var ab := if h.ab.Some? then ["# branch.ab " + ("+" + Decimal(h.ab.value.0) + " -" + Decimal(h.ab.value.1))] else [];
    assert HeadRecords(h) + rest == [oid] + ([name] + (upstream + (ab + rest)));
    OidBack(NO_BRANCH, h.oid);
    var b1 := NO_BRANCH.(oid := h.oid);
    NameBack(b1, h.name);
    var b2 := b1.(head := h.name, detached := h.name.None?);
    OneHeader(Status(NO_BRANCH, []), oid, [name] + (upstream + (ab + rest)));
    OneHeader(Status(b1, []), name, upstream + (ab + rest));
    var b3 := if h.upstream.Some? then b2.(upstream := h.upstream) else b2;
    if h.upstream.Some? {
      UpstreamBack(b2, h.upstream.value);
      OneHeader(Status(b2, []), upstream[0], ab + rest);
    } else {
      assert upstream + (ab + rest) == ab + rest;
    }
    if h.ab.Some? {
      AbBack(b3, h.ab.value.0, h.ab.value.1);
      OneHeader(Status(b3, []), ab[0], rest);
    } else {
      assert ab + rest == rest;
    }
  }

  lemma {:induction false} NoNulItems(items: seq<Item>)
    requires forall e :: e in items ==> ItemOk(e)
    ensures forall r :: r in AllRecords(items) ==> NUL !in r
  {
    hide ItemOk, RecordOf;
    if items != [] {
      assert ItemOk(items[0]);
      NoNulItem(items[0]);
      NoNulItems(items[1..]);
    }
  }

  lemma NoNulItem(e: Item)
    requires ItemOk(e)
    ensures forall r :: r in ItemRecords(e) ==> NUL !in r
  {
    if e.kind != Untracked {
      var fields := [KindChar(e.kind), e.xy] + e.fields;
      forall f | f in fields ensures NUL !in f {
        assert f == KindChar(e.kind) || f == e.xy || f in e.fields;
      }
      NoNulSpaced(fields, e.path);
    }
  }

  lemma {:induction false} NoNulSpaced(fields: seq<string>, path: string)
    requires NUL !in path && forall f :: f in fields ==> NUL !in f
    ensures NUL !in Spaced(fields, path)
  {
    if fields != [] {
      assert NUL !in fields[0];
      NoNulSpaced(fields[1..], path);
    }
  }

  lemma NoNulHead(h: Head)
    requires HeadOk(h)
    ensures forall r :: r in HeadRecords(h) ==> NUL !in r
  {
    hide Decimal, Number;
    if h.ab.Some? {
      DecimalBack(h.ab.value.0);
      DecimalBack(h.ab.value.1);
      NoNulDigits(Decimal(h.ab.value.0));
      NoNulDigits(Decimal(h.ab.value.1));
    }
  }

  lemma NoNulDigits(s: string)
    requires Digits(s)
    ensures NUL !in s
  {
    assert !Digit(NUL);
  }

  /** Whatever branch and entries Git prints, parsing gives them back: paths with any spaces, renames with two records. */
  lemma PorcelainRoundTrip(h: Head, items: seq<Item>)
    requires HeadOk(h) && forall e :: e in items ==> ItemOk(e)
    ensures Parse(Printed(h, items)) == Status(BranchOf(h), Entries(items))
  {
    hide HeadRecords, AllRecords, HeadOk, ItemOk, ParseFrom, Records;
    var records := HeadRecords(h) + AllRecords(items);
    NoNulHead(h);
    NoNulItems(items);
    RecordsBack(records);
    assert records + [""] == HeadRecords(h) + (AllRecords(items) + [""]);
    HeadBack(h, AllRecords(items) + [""]);
    ItemsBack(Status(BranchOf(h), []), items);
    assert [] + Entries(items) == Entries(items);
  }
}
