/** The `server.properties` file: `key=value` lines with `#` comments, read
    into an insertion-ordered table of typed values and written back. */
module PropertyHandler {
  import opened Exceptions
  import opened Text
  import opened OrderedDicts

  /** A property value after typing. `VNone` is Python's `None`, which `get`
      returns as its default fallback and which `save` writes as empty. */
  datatype Value = VBool(b: bool) | VInt(i: int) | VStr(s: string) | VNone

  /** Python truthiness of a value. */
  predicate Truthy(v: Value) {
    match v
    case VBool(b) => b
    case VInt(i) => i != 0
    case VStr(s) => s != ""
    case VNone => false
  }

  /** The typing `__init__` applies to a raw value: the two boolean words,
      then whatever `int()` accepts, else the text itself. */
  function TypeValue(raw: string): (v: Value)
    ensures v.VBool? <==> raw == "true" || raw == "false"
    ensures v.VInt? ==> ParseInt(raw) == Some(v.i)
    ensures v.VStr? ==> ParseInt(raw).None?
    ensures v.VInt? || FormatValue(v) == raw
  {
    if raw == "true" || raw == "false" then VBool(raw == "true")
    else if ParseInt(raw).Some? then VInt(ParseInt(raw).value)
    else VStr(raw)
  }

  /** One `key: value` entry. */
  type Item = (string, Value)

  /** The table of properties, in file order. */
  type Table = Dict<Value>

  /** Python's text-mode reading: `\r\n` and a lone `\r` both become `\n`. */
  function TranslateNewlines(s: string): string
    decreases |s|
  {
    if s == [] then []
    else if s[0] == '\r' then
      if |s| > 1 && s[1] == '\n' then "\n" + TranslateNewlines(s[2..]) else "\n" + TranslateNewlines(s[1..])
    else [s[0]] + TranslateNewlines(s[1..])
  }

  /** The length of the first line of `s`, its newline included. */
  function LineLength(s: string): (n: nat)
    ensures 0 < n <= |s| || (s == [] && n == 0)
    decreases |s|
  {
    if s == [] then 0 else if s[0] == '\n' then 1 else 1 + LineLength(s[1..])
  }

  /** Iterating over a text file: lines that keep their `\n`; the last one may lack it. */
  function SplitLines(s: string): seq<string>
    decreases |s|
  {
    if s == [] then [] else [s[..LineLength(s)]] + SplitLines(s[LineLength(s)..])
  }

  /** What one line contributes: nothing for a comment, a key and typed value
      otherwise, a ValueError when the line does not split into exactly two
      parts at `=`. */
  function ParseLine(line: string): (r: Result<Option<(string, Value)>>)
    ensures r == Ok(None) <==> StartsWith(line, "#")
    ensures r.Err? ==> r.error == ValueError(line)
    ensures r.Ok? && r.value.Some? ==>
              var key := r.value.value.0;
              && |key| < |line| && line[..|key|] == key && line[|key|] == '='
              && '=' !in key && '=' !in line[|key| + 1..]
              && r.value.value.1 == TypeValue(RStripNewlines(line[|key| + 1..]))
  {
    if StartsWith(line, "#") then Ok(None)
    else
      var parts := Split(line, '=');
      if |parts| != 2 then Err(ValueError(line))
      else
        SplitJoin(line, '=');
        assert line == parts[0] + "=" + parts[1];
        assert line[|parts[0]| + 1..] == parts[1];
        Ok(Some((parts[0], TypeValue(RStripNewlines(parts[1])))))
  }

  /** The loop of `__init__` over the remaining lines, from table `t`. */
  function ParseLines(lines: seq<string>, t: Table): (r: Result<Table>)
    ensures r.Err? ==> r.error.ValueError?
    ensures Distinct(t) && r.Ok? ==> Distinct(r.value)
    decreases |lines|
  {
    if lines == [] then Ok(t)
    else match ParseLine(lines[0])
      case Err(e) => Err(e)
      case Ok(None) => ParseLines(lines[1..], t)
      case Ok(Some(kv)) =>
        if Distinct(t) then PutDistinct(t, kv.0, kv.1); ParseLines(lines[1..], Put(t, kv.0, kv.1))
        else ParseLines(lines[1..], Put(t, kv.0, kv.1))
  }

  /** The table `__init__` builds from the file's contents (`None`: no file). */
  function ParseFile(file: Option<string>): (r: Result<Table>)
    ensures file.None? ==> r == Ok([])
    ensures r.Ok? ==> Distinct(r.value)
    ensures r.Err? ==> r.error.ValueError?
  {
    match file
    case None => Ok([])
    case Some(text) => ParseLines(SplitLines(TranslateNewlines(text)), [])
  }

  /** How `save` writes one value. */
  function FormatValue(v: Value): (r: string)
    ensures !v.VStr? ==> '=' !in r && '\n' !in r && '\r' !in r
  {
    match v
    case VBool(b) => if b then "true" else "false"
    case VNone => ""
    case VInt(i) => IntToStringChars(i); IntToString(i)
    case VStr(s) => s
  }

  function FormatLine(item: Item): string {
    item.0 + "=" + FormatValue(item.1) + "\n"
  }

  /** The text `save` writes for the given items. */
  function Serialize(items: Table): string
    decreases |items|
  {
    if items == [] then "" else FormatLine(items[0]) + Serialize(items[1..])
  }

  lemma {:induction false} SerializeAppend(a: Table, b: Table)
    ensures Serialize(a + b) == Serialize(a) + Serialize(b)
    decreases |a|
  {
    if a == [] {
      assert a + b == b;
    } else {
      assert (a + b)[1..] == a[1..] + b;
      SerializeAppend(a[1..], b);
    }
  }

  /** Every comment line is skipped and leaves the table as it was. */
  lemma CommentLinesSkipped(line: string, rest: seq<string>, t: Table)
    requires StartsWith(line, "#")
    ensures ParseLines([line] + rest, t) == ParseLines(rest, t)
  {
    assert ([line] + rest)[1..] == rest;
  }

  /** A non-comment line without exactly one `=` (a blank line, a second
      `=`) is an error that ends the whole load. */
  lemma MalformedLineFails(line: string, rest: seq<string>, t: Table)
    requires !StartsWith(line, "#") && |Split(line, '=')| != 2
    ensures ParseLines([line] + rest, t) == Err(ValueError(line))
  {
  }

  /** A later line for the same key overwrites the earlier value in place. */
  lemma LaterDuplicateWins(line1: string, line2: string, t: Table)
    requires !StartsWith(line1, "#") && !StartsWith(line2, "#")
    requires |Split(line1, '=')| == 2 && |Split(line2, '=')| == 2
    requires Split(line1, '=')[0] == Split(line2, '=')[0]
    ensures ParseLines([line1, line2], t) == ParseLines([line2], t)
  {
    var k := Split(line1, '=')[0];
    var v1 := TypeValue(RStripNewlines(Split(line1, '=')[1]));
    assert [line1, line2][1..] == [line2];
    PutTwice(t, k, v1, TypeValue(RStripNewlines(Split(line2, '=')[1])));
  }

  // ---- Round trip of save and load ----

  /** A key `save` writes in a form that reads back as the same key. */
  predicate SafeKey(k: string) {
    '=' !in k && '\n' !in k && '\r' !in k && !StartsWith(k, "#")
  }

  /** A value `save` writes in a form that reads back as an equal value. */
  predicate SafeValue(v: Value) {
    match v
    case VStr(s) => '=' !in s && '\n' !in s && '\r' !in s && TypeValue(s) == VStr(s)
    case _ => true
  }

  /** What a saved value reads back as: `None` was written as empty. */
  function Reloaded(v: Value): Value {
    if v == VNone then VStr("") else v
  }

  predicate SafeItems(items: Table) {
    forall i :: 0 <= i < |items| ==> SafeKey(items[i].0) && SafeValue(items[i].1)
  }

  lemma IntTextChars(i: int)
    ensures '=' !in IntToString(i) && '\n' !in IntToString(i) && '\r' !in IntToString(i)
    ensures TypeValue(IntToString(i)) == VInt(i)
  {
    var s := IntToString(i);
    IntToStringChars(i);
    ParseIntOfIntToString(i);
    assert s != "true" && s != "false" by {
      assert IsDigit(s[0]) || s[0] == '-';
    }
  }

  lemma FormatValueChars(v: Value)
    requires SafeValue(v)
    ensures '=' !in FormatValue(v) && '\n' !in FormatValue(v) && '\r' !in FormatValue(v)
    ensures TypeValue(FormatValue(v)) == Reloaded(v)
  {
    match v
    case VInt(i) =>
      IntTextChars(i);
    case VBool(b) =>
    case VStr(s) =>
    case VNone =>
      assert ParseInt("").None?;
  }

  /** One written line reads back as its key and reloaded value. */
  lemma ParseFormatLine(item: Item)
    requires SafeKey(item.0) && SafeValue(item.1)
    ensures ParseLine(FormatLine(item)) == Ok(Some((item.0, Reloaded(item.1))))
  {
    var k, w := item.0, FormatValue(item.1);
    FormatValueChars(item.1);
    assert FormatLine(item) == k + ['='] + (w + "\n");
    KeyLineNotComment(k, w + "\n");
    SplitOnce(k, w + "\n", '=');
    RStripOneNewline(w);
  }

  lemma KeyLineNotComment(k: string, rest: string)
    requires !StartsWith(k, "#")
    ensures !StartsWith(k + ['='] + rest, "#")
  {
    if |k| > 0 {
      assert (k + ['='] + rest)[0] == k[0];
    } else {
      assert (k + ['='] + rest)[0] == '=';
    }
  }

  lemma RStripOneNewline(w: string)
    requires '\n' !in w
    ensures RStripNewlines(w + "\n") == w
  {
    assert (w + "\n")[..|w|] == w;
  }

  /** The first line of `line + rest`, when `line` ends with its only newline. */
  lemma {:induction false} LineLengthOfLine(body: string, rest: string)
    requires '\n' !in body
    ensures LineLength(body + "\n" + rest) == |body| + 1
    decreases |body|
  {
    if body != [] {
      assert (body + "\n" + rest)[1..] == body[1..] + "\n" + rest;
      LineLengthOfLine(body[1..], rest);
    }
  }

  function FormatLines(items: Table): (lines: seq<string>)
    ensures |lines| == |items|
    ensures forall i :: 0 <= i < |items| ==> lines[i] == FormatLine(items[i])
  {
    seq(|items|, i requires 0 <= i < |items| => FormatLine(items[i]))
  }

  lemma SplitLinesCons(body: string, rest: string)
    requires '\n' !in body
    ensures SplitLines(body + "\n" + rest) == [body + "\n"] + SplitLines(rest)
  {
    var s := body + "\n" + rest;
    LineLengthOfLine(body, rest);
    assert s[..|body| + 1] == body + "\n";
    assert s[|body| + 1..] == rest;
  }

  lemma {:induction false} SplitLinesOfSerialize(items: Table)
    requires SafeItems(items)
    ensures SplitLines(Serialize(items)) == FormatLines(items)
    decreases |items|
  {
    if items != [] {
      var body := LineBody(items[0]);
      SplitLinesCons(body, Serialize(items[1..]));
      SafeItemsTail(items);
      SplitLinesOfSerialize(items[1..]);
      FormatLinesCons(items);
    }
  }

  lemma SafeItemsTail(items: Table)
    requires items != [] && SafeItems(items)
    ensures SafeItems(items[1..])
  {
    forall i | 0 <= i < |items| - 1
      ensures SafeKey(items[1..][i].0) && SafeValue(items[1..][i].1)
    {
      assert items[1..][i] == items[i + 1];
    }
  }

  lemma FormatLinesCons(items: Table)
    requires items != []
    ensures FormatLines(items) == [FormatLine(items[0])] + FormatLines(items[1..])
  {
  }

  /** A written line without its newline, which holds no other newline. */
  lemma LineBody(item: Item) returns (body: string)
    requires SafeKey(item.0) && SafeValue(item.1)
    ensures '\n' !in body && FormatLine(item) == body + "\n"
  {
    body := item.0 + "=" + FormatValue(item.1);
    FormatValueChars(item.1);
  }

  function ReloadedItems(items: Table): (r: Table)
    ensures |r| == |items|
    ensures forall i :: 0 <= i < |items| ==> r[i] == (items[i].0, Reloaded(items[i].1))
  {
    seq(|items|, i requires 0 <= i < |items| => (items[i].0, Reloaded(items[i].1)))
  }

  lemma {:induction false} ParseFormatLines(items: Table, t: Table)
    requires SafeItems(items)
    ensures ParseLines(FormatLines(items), t) == Ok(PutAll(t, ReloadedItems(items)))
    decreases |items|
  {
    if items != [] {
      ParseFormatLine(items[0]);
      assert FormatLines(items)[1..] == FormatLines(items[1..]);
      assert ReloadedItems(items)[1..] == ReloadedItems(items[1..]);
      ParseFormatLines(items[1..], Put(t, items[0].0, Reloaded(items[0].1)));
    }
  }

  lemma {:induction false} ReloadedKeepsKeys(items: Table, k: string)
    ensures HasKey(ReloadedItems(items), k) <==> HasKey(items, k)
    decreases |items|
  {
    if items != [] {
      assert ReloadedItems(items)[1..] == ReloadedItems(items[1..]);
      ReloadedKeepsKeys(items[1..], k);
    }
  }

  lemma {:induction false} ReloadedDistinct(items: Table)
    requires Distinct(items)
    ensures Distinct(ReloadedItems(items))
    decreases |items|
  {
    if items != [] {
      assert ReloadedItems(items)[1..] == ReloadedItems(items[1..]);
      ReloadedKeepsKeys(items[1..], items[0].0);
      ReloadedDistinct(items[1..]);
    }
  }

  /** Round trip: reading back what `save` wrote gives the same entries in
      the same order, `None` coming back as the empty text, when no key or
      text value holds `=` or a line break, no key starts with `#`, and no
      text value reads as a boolean or an integer. */
  lemma SaveThenLoad(t: Table)
    requires Distinct(t) && SafeItems(t)
    ensures ParseFile(Some(Serialize(t))) == Ok(ReloadedItems(t))
  {
    ReadBackLines(t);
    ParseFormatLines(t, []);
    ReloadedDistinct(t);
    PutAllIntoEmpty(ReloadedItems(t));
  }

  /** Reading the saved text yields exactly the written lines. */
  lemma ReadBackLines(items: Table)
    requires SafeItems(items)
    ensures SplitLines(TranslateNewlines(Serialize(items))) == FormatLines(items)
  {
    SerializeNoCarriageReturn(items);
    TranslateNewlinesIdentity(Serialize(items));
    SplitLinesOfSerialize(items);
  }

  lemma {:induction false} SerializeNoCarriageReturn(items: Table)
    requires SafeItems(items)
    ensures '\r' !in Serialize(items)
    decreases |items|
  {
    if items != [] {
      FormatValueChars(items[0].1);
      SerializeNoCarriageReturn(items[1..]);
    }
  }

  lemma {:induction false} TranslateNewlinesIdentity(s: string)
    requires '\r' !in s
    ensures TranslateNewlines(s) == s
    decreases |s|
  {
    if s != [] {
      TranslateNewlinesIdentity(s[1..]);
      assert [s[0]] + s[1..] == s;
    }
  }

  /** The properties of one server, kept in file order, and the file they
      came from. `file` is the file's current contents (`None`: absent). */
  class ServerProperties {
    var fileName: string
    var entries: Table
    var file: Option<string>

    ghost predicate Valid()
      reads this`entries
    {
      Distinct(entries)
    }

    constructor (fileName: string, t: Table, file: Option<string>)
      requires Distinct(t)
      ensures Valid() && entries == t && this.fileName == fileName && this.file == file
    {
      this.fileName := fileName;
      this.entries := t;
      this.file := file;
    }

    /** `set(key, value)` */
    method Set(key: string, value: Value)
      requires Valid()
      modifies this`entries
      ensures Valid()
      ensures entries == Put(old(entries), key, value)
    {
      PutDistinct(entries, key, value);
      entries := Put(entries, key, value);
    }

    /** `get(key, fallback)` */
    function Get(key: string, fallback: Value): (v: Value)
      reads this
      ensures !HasKey(entries, key) ==> v == fallback
      ensures HasKey(entries, key) ==> (key, v) in entries
    {
      Lookup(entries, key, fallback)
    }

    /** `to_dict()` */
    function ToDict(): (m: map<string, Value>)
      reads this
      ensures forall k :: k in m <==> HasKey(entries, k)
      ensures forall k :: k in m ==> Get(k, VNone) == m[k]
    {
      ToMap(entries)
    }

    /** `save()`: one `key=value` line per entry, in insertion order. */
    method Save()
      modifies this`file
      ensures file == Some(Serialize(entries))
    {
      var text := "";
      var i := 0;
      while i < |entries|
        invariant 0 <= i <= |entries|
        invariant text == Serialize(entries[..i])
      {
        var key := entries[i].0;
        var line := key + "=" + FormatValue(entries[i].1) + "\n";
        assert entries[..i + 1] == entries[..i] + [entries[i]];
        SerializeAppend(entries[..i], [entries[i]]);
        text := text + line;
        i := i + 1;
      }
      assert entries[..i] == entries;
      file := Some(text);
    }
  }

  /** `ServerProperties(file_name, ...)`: reads the file line by line into a
      new table; a malformed line makes the whole construction fail. */
  method Load(fileName: string, file: Option<string>) returns (r: Result<ServerProperties>)
    ensures r.Ok? <==> ParseFile(file).Ok?
    ensures r.Err? ==> r.error == ParseFile(file).error
    ensures r.Ok? ==> fresh(r.value) && r.value.Valid() && r.value.entries == ParseFile(file).value
    ensures r.Ok? ==> r.value.file == file && r.value.fileName == fileName
  {
    if file.None? {
      var props := new ServerProperties(fileName, [], file);
      return Ok(props);
    }
    var lines := SplitLines(TranslateNewlines(file.value));
    var t: Table := [];
    var i := 0;
    while i < |lines|
      invariant 0 <= i <= |lines|
      invariant Distinct(t)
      invariant ParseLines(lines[i..], t) == ParseFile(file)
    {
      assert lines[i..][1..] == lines[i + 1..];
      var line := lines[i];
      if !StartsWith(line, "#") {
        var parts := Split(line, '=');
        if |parts| != 2 {
          return Err(ValueError(line));
        }
        var raw := RStripNewlines(parts[1]);
        PutDistinct(t, parts[0], TypeValue(raw));
        t := Put(t, parts[0], TypeValue(raw));
      }
      i := i + 1;
    }
    var props := new ServerProperties(fileName, t, file);
    return Ok(props);
  }
}
