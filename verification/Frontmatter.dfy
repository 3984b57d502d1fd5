/** packages/shared/frontmatter.go: the byte-offset scanner that splits YAML
    frontmatter from the body, and the line editor that sets fields in it.
    YAML itself is a parameter: a total function of the header text. */
module Frontmatter {
  import opened Wrappers
  import opened Text
  import opened Literals

  /** What yaml.Unmarshal makes of a header: an error, a document without any
      field (Go's nil map), or a mapping. */
  datatype Yaml<+V> = Invalid | Null | Mapping(fields: map<string, V>)

  datatype Field = Field(key: string, value: string)

  // ---------------------------------------------------------------- lines

  predicate IsFence(line: string) {
    TrimSpace(line) == "---" || TrimSpace(line) == "..."
  }

  /** The first line opens a block: --- and nothing else but white space, with
      a newline after it. */
  predicate Opens(lines: seq<string>) {
    |lines| >= 2 && "---" <= lines[0] && TrimSpace(lines[0][3..]) == ""
  }

  /** The first fence at or after line i, or |lines|. */
  function FirstFence(lines: seq<string>, i: nat): (c: nat)
    requires i <= |lines|
    ensures i <= c <= |lines|
    ensures forall k :: i <= k < c ==> !IsFence(lines[k])
    ensures c < |lines| ==> IsFence(lines[c])
    decreases |lines| - i
  {
    if i == |lines| || IsFence(lines[i]) then i else FirstFence(lines, i + 1)
  }

  lemma FirstFenceUnique(lines: seq<string>, i: nat, c: nat)
    requires i <= c < |lines|
    requires IsFence(lines[c])
    requires forall k :: i <= k < c ==> !IsFence(lines[k])
    ensures FirstFence(lines, i) == c
  {
  }

  /** Lines as they stand in a header, each ended by a newline. */
  function Terminated(lines: seq<string>): string {
    if lines == [] then "" else lines[0] + "\n" + Terminated(lines[1..])
  }

  lemma {:induction false} TerminatedSnoc(lines: seq<string>, line: string)
    ensures Terminated(lines + [line]) == Terminated(lines) + line + "\n"
  {
    if lines == [] {
      assert [line][1..] == [];
      assert lines + [line] == [line];
      assert Terminated([line]) == line + "\n" + "";
    } else {
      TerminatedSnoc(lines[1..], line);
      assert (lines + [line])[1..] == lines[1..] + [line];
    }
  }

  // -------------------------------------------------------------- splitting

  /** The frontmatter read line by line: the reference the byte scanner is
      proved against. */
  function ReadLines<V>(src: string, yaml: string -> Yaml<V>): (Option<map<string, V>>, string) {
    var lines := Split(src, NL);
    if !Opens(lines) then (None, src)
    else
      var c := FirstFence(lines, 1);
      if c == |lines| then (None, src)
      else
        Decode(src, Terminated(lines[1..c]), Join(lines[c + 1..], NL), yaml)
  }

  /** The header lines found so far and the lines still to read, taken one line
      at a time up to the fence. */
  function Scan(before: seq<string>, later: seq<string>): Option<(seq<string>, seq<string>)>
    decreases |later|
  {
    if later == [] then None
    else if IsFence(later[0]) then Some((before, later[1..]))
    else Scan(before + [later[0]], later[1..])
  }

  lemma {:induction false} ScanFindsFence(lines: seq<string>, k: nat)
    requires 1 <= k <= |lines|
    ensures var c := FirstFence(lines, k);
            Scan(lines[1..k], lines[k..])
            == if c == |lines| then None else Some((lines[1..c], lines[c + 1..]))
    decreases |lines| - k
  {
    if k < |lines| && !IsFence(lines[k]) {
      assert lines[1..k] + [lines[k]] == lines[1..k + 1];
      ScanFindsFence(lines, k + 1);
    }
  }

  /** Where the line starting at idx ends. */
  function LineEnd(rest: string, idx: nat): (e: nat)
    requires idx <= |rest|
    ensures idx <= e <= |rest|
  {
    var e := IndexOf(rest[idx..], NL);
    if e < 0 then |rest| else idx + e
  }

  lemma LineRead(rest: string, idx: nat, later: seq<string>)
    requires idx <= |rest| && Split(rest[idx..], NL) == later
    ensures var e := LineEnd(rest, idx);
            && rest[idx..e] == later[0]
            && (e == |rest| <==> later[1..] == [])
            && (e < |rest| ==> rest[e] == NL && Split(rest[e + 1..], NL) == later[1..])
            && Join(later[1..], NL) == if e < |rest| then rest[e + 1..] else ""
  {
    var tail := rest[idx..];
    var i := IndexOf(tail, NL);
    var e := LineEnd(rest, idx);
    if i >= 0 {
      assert tail[..i] == rest[idx..e];
      assert tail[i + 1..] == rest[e + 1..];
      JoinSplit(rest[e + 1..], NL);
    }
  }

  lemma HeaderGrows(rest: string, idx: nat, e: nat, before: seq<string>)
    requires idx <= e < |rest| && rest[e] == NL && rest[..idx] == Terminated(before)
    ensures rest[..e + 1] == Terminated(before + [rest[idx..e]])
  {
    assert rest[..e + 1] == rest[..idx] + rest[idx..e] + "\n";
    TerminatedSnoc(before, rest[idx..e]);
  }

  lemma Started(src: string)
    requires "---" <= src && IndexOf(src, NL) >= 0
    ensures var nl, lines := IndexOf(src, NL), Split(src, NL);
            && nl >= 3
            && |lines| >= 2 && lines[1..] == Split(src[nl + 1..], NL)
            && (Opens(lines) <==> TrimSpace(src[3..nl]) == "")
  {
    var nl := IndexOf(src, NL);
    FirstLineFeed(src);
    FirstLineSplit(src);
    assert src[..nl][3..] == src[3..nl];
    OpensBy(Split(src, NL), src[..nl]);
  }

  lemma FirstLineSplit(src: string)
    requires IndexOf(src, NL) >= 0
    ensures var nl, lines := IndexOf(src, NL), Split(src, NL);
            |lines| >= 2 && lines[0] == src[..nl] && lines[1..] == Split(src[nl + 1..], NL)
  {
  }

  lemma OpensBy(lines: seq<string>, first: string)
    requires |lines| >= 2 && lines[0] == first && "---" <= first
    ensures Opens(lines) <==> TrimSpace(first[3..]) == ""
  {
  }

  lemma FirstLineFeed(src: string)
    requires "---" <= src && IndexOf(src, NL) >= 0
    ensures IndexOf(src, NL) >= 3
  {
    IndexOfFirst(src, NL);
    assert src[0] == '-' && src[1] == '-' && src[2] == '-';
  }

  lemma NeverOpens(src: string)
    requires !("---" <= src) || IndexOf(src, NL) < 0
    ensures !Opens(Split(src, NL))
  {
    var lines := Split(src, NL);
    if |lines| >= 2 {
      assert lines[0] <= src;
    }
  }

  /** What the source comes to, given the outcome of the scan. */
  function Decide<V>(src: string, scan: Option<(seq<string>, seq<string>)>, yaml: string -> Yaml<V>)
    : (Option<map<string, V>>, string)
  {
    match scan
    case None => (None, src)
    case Some((header, rest)) => Decode(src, Terminated(header), Join(rest, NL), yaml)
  }

  function Decode<V>(src: string, header: string, body: string, yaml: string -> Yaml<V>)
    : (Option<map<string, V>>, string)
  {
    match yaml(header)
    case Invalid => (None, src)
    case Null => (None, body)
    case Mapping(fm) => (Some(fm), body)
  }

  lemma ScanDecides<V>(src: string, lines: seq<string>, yaml: string -> Yaml<V>)
    requires lines == Split(src, NL) && Opens(lines)
    ensures ReadLines(src, yaml) == Decide(src, Scan([], lines[1..]), yaml)
  {
    assert lines[1..1] == [];
    ScanFindsFence(lines, 1);
  }

  /** SplitFrontmatter: the scan by byte offset accepts the same header, hands
      the same text to YAML and returns the same body as reading the lines. */
  method SplitFrontmatter<V>(src: string, yaml: string -> Yaml<V>)
    returns (fm: Option<map<string, V>>, body: string)
    ensures (fm, body) == ReadLines(src, yaml)
  {
    if !("---" <= src) {
      NeverOpens(src);
      return None, src;
    }
    var nl := IndexOf(src, NL);
    if nl < 0 {
      NeverOpens(src);
      return None, src;
    }
    Started(src);
    if TrimSpace(src[3..nl]) != "" {
      return None, src;
    }
    fm, body := ScanBytes(src, nl, yaml);
  }

  /** The loop of SplitFrontmatter, from the byte after the opening line. */
  method ScanBytes<V>(src: string, nl: nat, yaml: string -> Yaml<V>)
    returns (fm: Option<map<string, V>>, body: string)
    requires nl < |src| && nl == IndexOf(src, NL) && Opens(Split(src, NL))
    requires Split(src[nl + 1..], NL) == Split(src, NL)[1..]
    ensures (fm, body) == ReadLines(src, yaml)
  {
    ghost var lines := Split(src, NL);
    ScanDecides(src, lines, yaml);
    ghost var scan := Scan([], lines[1..]);
    var rest := src[nl + 1..];
    var idx: nat := 0;
    ghost var before, later := [], lines[1..];
    assert rest[idx..] == rest;
    while true
      invariant idx <= |rest| && Split(rest[idx..], NL) == later
      invariant rest[..idx] == Terminated(before)
      invariant scan == Scan(before, later)
      decreases |later|
    {
      var e := LineEnd(rest, idx);
      LineRead(rest, idx, later);
      var line := rest[idx..e];
      var next := if e < |rest| then e + 1 else |rest|;
      var trimmed := TrimSpace(line);
      if trimmed == "---" || trimmed == "..." {
        assert scan == Some((before, later[1..]));
        assert rest[next..] == Join(later[1..], NL);
        match yaml(rest[..idx]) {
          case Invalid => return None, src;
          case Null => return None, rest[next..];
          case Mapping(m) => return Some(m), rest[next..];
        }
      }
      if e == |rest| {
        assert scan == None;
        return None, src;
      }
      HeaderGrows(rest, idx, e, before);
      idx, before, later := next, before + [later[0]], later[1..];
    }
  }

  // ---------------------------------------------------------------- editing

  function HexDigit(d: nat): char
    requires d < 16
  {
    "0123456789abcdef"[d]
  }

  /** One character inside a %q literal. */
  function Escape(c: char): (r: string)
    ensures NL !in r
  {
    if c == '"' then "\\\""
    else if c == '\\' then "\\\\"
    else if c == '\n' then "\\n"
    else if c == '\t' then "\\t"
    else if c == '\r' then "\\r"
    else if c as int == 7 then "\\a"
    else if c as int == 8 then "\\b"
    else if c as int == 11 then "\\v"
    else if c as int == 12 then "\\f"
    else if c as int < 32 || c as int == 127 then "\\x" + [HexDigit(c as int / 16), HexDigit(c as int % 16)]
    else [c]
  }

  function EscapeAll(s: string): (r: string)
    ensures NL !in r
  {
    if s == "" then "" else Escape(s[0]) + EscapeAll(s[1..])
  }

  /** The line a field is written as: key, colon, the value as a %q literal. */
  function FieldLine(f: Field): string {
    f.key + ": \"" + EscapeAll(f.value) + "\""
  }

  predicate Matches(line: string, key: string) {
    key + ":" <= TrimSpace(line)
  }

  /** The first line in [i, closing) that sets key, or closing. */
  function FindKey(lines: seq<string>, i: nat, closing: nat, key: string): (k: nat)
    requires i <= closing <= |lines|
    ensures i <= k <= closing
    ensures k < closing ==> Matches(lines[k], key)
    ensures forall j :: i <= j < k ==> !Matches(lines[j], key)
    decreases closing - i
  {
    if i == closing || Matches(lines[i], key) then i else FindKey(lines, i + 1, closing, key)
  }

  /** One field set in the lines of a document whose fence is line closing. */
  function SetField(lines: seq<string>, closing: nat, f: Field): (r: (seq<string>, nat))
    requires 1 <= closing < |lines|
    ensures 1 <= r.1 < |r.0|
  {
    var k := FindKey(lines, 1, closing, f.key);
    if k < closing then (lines[k := FieldLine(f)], closing)
    else (lines[..closing] + [FieldLine(f)] + lines[closing..], closing + 1)
  }

  function SetFields(lines: seq<string>, closing: nat, fields: seq<Field>): (r: (seq<string>, nat))
    requires 1 <= closing < |lines|
    ensures 1 <= r.1 < |r.0|
    decreases |fields|
  {
    if fields == [] then (lines, closing)
    else
      var r := SetField(lines, closing, fields[0]);
      SetFields(r.0, r.1, fields[1..])
  }

  function FieldLines(fields: seq<Field>): seq<string> {
    if fields == [] then [] else [FieldLine(fields[0])] + FieldLines(fields[1..])
  }

  /** UpsertFrontmatterFields as a function of the source. */
  function Upsert<V>(src: string, fields: seq<Field>, yaml: string -> Yaml<V>): string {
    if fields == [] then src
    else if ReadLines(src, yaml).0 == None then
      "---\n" + Terminated(FieldLines(fields)) + "---\n" + src
    else
      var lines := Split(src, NL);
      Join(SetFields(lines, FirstFence(lines, 1), fields).0, NL)
  }

  method FindFence(lines: seq<string>) returns (closing: int)
    requires |lines| >= 1
    ensures closing == if FirstFence(lines, 1) < |lines| then FirstFence(lines, 1) else -1
  {
    closing := -1;
    var i := 1;
    while i < |lines|
      invariant 1 <= i <= |lines|
      invariant FirstFence(lines, i) == FirstFence(lines, 1)
    {
      var trimmed := TrimSpace(lines[i]);
      if trimmed == "---" || trimmed == "..." {
        return i;
      }
      i := i + 1;
    }
  }

  /** Replaces the first header line with the field's key, or puts a line in
      before the closing fence, which then moves. */
  method PutField(was: seq<string>, fence: nat, f: Field) returns (lines: seq<string>, closing: nat)
    requires 1 <= fence < |was|
    ensures (lines, closing) == SetField(was, fence, f) && 1 <= closing < |lines|
  {
    lines, closing := was, fence;
    var i := 1;
    while i < closing
      invariant 1 <= i <= closing
      invariant FindKey(lines, i, closing, f.key) == FindKey(lines, 1, closing, f.key)
    {
      if Matches(lines[i], f.key) {
        return lines[i := FieldLine(f)], closing;
      }
      i := i + 1;
    }
    lines := lines[..closing] + [FieldLine(f)] + lines[closing..];
    closing := closing + 1;
  }

  /** The text of a new block. */
  method NewBlock(fields: seq<Field>) returns (b: string)
    ensures b == "---\n" + Terminated(FieldLines(fields)) + "---\n"
  {
    b := "---\n";
    for n := 0 to |fields|
      invariant b + Terminated(FieldLines(fields[n..])) == "---\n" + Terminated(FieldLines(fields))
    {
      b := b + FieldLine(fields[n]) + "\n";
      assert fields[n..][1..] == fields[n + 1..];
    }
    b := b + "---\n";
  }

  /** The edit of the lines of a document with frontmatter. */
  method EditLines<V>(src: string, fields: seq<Field>, yaml: string -> Yaml<V>) returns (out: string)
    requires fields != [] && ReadLines(src, yaml).0.Some?
    ensures out == Upsert(src, fields, yaml)
  {
    var lines := Split(src, NL);
    var closing := FindFence(lines);
    assert closing >= 1; // SplitFrontmatter accepted the header, so there is a fence
    for n := 0 to |fields|
      invariant 1 <= closing < |lines|
      invariant SetFields(lines, closing, fields[n..])
             == SetFields(Split(src, NL), FirstFence(Split(src, NL), 1), fields)
    {
      lines, closing := PutField(lines, closing, fields[n]);
      assert fields[n..][1..] == fields[n + 1..];
    }
    return Join(lines, NL);
  }

  /** UpsertFrontmatterFields. */
  method UpsertFrontmatterFields<V>(src: string, fields: seq<Field>, yaml: string -> Yaml<V>) returns (out: string)
    ensures out == Upsert(src, fields, yaml)
    ensures fields != [] && WellKeyed(fields) ==> SaysAll(out, fields)
  {
    if fields == [] {
      return src;
    }
    var fm, _ := SplitFrontmatter(src, yaml);
    if fm == None {
      var block := NewBlock(fields);
      out := block + src;
    } else {
      out := EditLines(src, fields, yaml);
    }
    if WellKeyed(fields) {
      UpsertSays(src, fields, yaml);
    }
  }

  // ------------------------------------------------------ what is written reads

  lemma {:induction false} HexRead(c: char, rest: string)
    requires c as int < 256
    ensures Unescape("\\x" + [HexDigit(c as int / 16), HexDigit(c as int % 16)] + rest) == Prepend(c, Unescape(rest))
  {
    var hi, lo := c as int / 16, c as int % 16;
    var s := "\\x" + [HexDigit(hi), HexDigit(lo)] + rest;
    HexValueOf(hi);
    HexValueOf(lo);
    assert s[0] == '\\' && s[1] == 'x' && s[2] == HexDigit(hi) && s[3] == HexDigit(lo) && s[4..] == rest;
    assert hi * 16 + lo == c as int;
  }

  lemma HexValueOf(d: nat)
    requires d < 16
    ensures HexValue(HexDigit(d)) == Some(d)
  {
  }

  /** The three forms of a written character. */
  lemma EscapeForms(c: char)
    ensures var e := Escape(c);
            || (e == [c] && c != '"' && c != '\\' && c != '\n')
            || (|e| == 2 && e[0] == '\\' && e[1] != 'x' && Named(e[1]) == Some(c))
            || (c as int < 256 && e == "\\x" + [HexDigit(c as int / 16), HexDigit(c as int % 16)])
  {
  }

  lemma PairRead(e: string, rest: string)
    requires |e| == 2 && e[0] == '\\' && e[1] != 'x' && Named(e[1]).Some?
    ensures Unescape(e + rest) == Prepend(Named(e[1]).value, Unescape(rest))
  {
    var s := e + rest;
    assert s[0] == '\\' && s[1] == e[1] && s[2..] == rest;
  }

  lemma EscapeRead(c: char, rest: string)
    ensures Unescape(Escape(c) + rest) == Prepend(c, Unescape(rest))
  {
    EscapeForms(c);
    if |Escape(c)| == 1 {
      assert (Escape(c) + rest)[0] == c && (Escape(c) + rest)[1..] == rest;
    } else if |Escape(c)| == 2 {
      PairRead(Escape(c), rest);
    } else {
      HexRead(c, rest);
    }
  }

  lemma {:induction false} EscapeAllRead(value: string)
    ensures Unescape(EscapeAll(value)) == Some(value)
  {
    if value == "" {
    } else {
      EscapeRead(value[0], EscapeAll(value[1..]));
      EscapeAllRead(value[1..]);
      assert value == [value[0]] + value[1..];
    }
  }

  /** A written line is the key, a colon, a blank and a literal of the value. */
  predicate Says(line: string, key: string, value: string) {
    var head := key + ": ";
    head <= line && Unquote(line[|head|..]) == Some(value)
  }

  lemma FieldLineSays(f: Field)
    ensures Says(FieldLine(f), f.key, f.value)
  {
    var head, lit := f.key + ": ", "\"" + EscapeAll(f.value) + "\"";
    assert FieldLine(f) == head + lit;
    LiteralReads(f.value);
  }

  lemma LiteralReads(v: string)
    ensures Unquote("\"" + EscapeAll(v) + "\"") == Some(v)
  {
    var lit := "\"" + EscapeAll(v) + "\"";
    assert lit[1..|lit| - 1] == EscapeAll(v);
    EscapeAllRead(v);
  }

  /** No two values are written alike. */
  lemma ValuesDiffer(key: string, v: string, w: string)
    requires FieldLine(Field(key, v)) == FieldLine(Field(key, w))
    ensures v == w
  {
    FieldLineSays(Field(key, v));
    FieldLineSays(Field(key, w));
  }

  /** The document has a header that ends at line c: the first line opens it, and
      c is the first line behind that is a fence. */
  predicate HeaderEnds(lines: seq<string>, c: nat) {
    && 1 <= c < |lines| && "---" <= lines[0] && TrimSpace(lines[0][3..]) == ""
    && (TrimSpace(lines[c]) == "---" || TrimSpace(lines[c]) == "...")
    && (forall i :: 1 <= i < c ==> TrimSpace(lines[i]) != "---" && TrimSpace(lines[i]) != "...")
  }

  /** In the header, the first line that starts with the key and a colon says the
      value. */
  predicate HeaderSays(lines: seq<string>, c: nat, key: string, value: string)
    requires c <= |lines|
  {
    exists k :: && 1 <= k < c && Says(lines[k], key, value)
                && forall i :: 1 <= i < k ==> !(key + ":" <= TrimSpace(lines[i]))
  }

  /** The text has a header that says every field. */
  ghost predicate SaysAll(text: string, fields: seq<Field>) {
    var lines := Split(text, NL);
    exists c :: && HeaderEnds(lines, c)
                && forall i :: 0 <= i < |fields| ==> HeaderSays(lines, c, fields[i].key, fields[i].value)
  }

  lemma EditOpens<V>(src: string, fields: seq<Field>, yaml: string -> Yaml<V>)
    requires fields != [] && NewlineFree(fields) && ReadLines(src, yaml).0.Some?
    ensures Opens(Split(Upsert(src, fields, yaml), NL))
  {
    UpsertKeepsLines(src, fields, yaml);
    assert Opens(Split(src, NL));
  }

  lemma BlockOpens<V>(src: string, fields: seq<Field>, yaml: string -> Yaml<V>)
    requires fields != [] && NewlineFree(fields) && ReadLines(src, yaml).0.None?
    ensures Opens(Split(Upsert(src, fields, yaml), NL))
  {
    NewBlockLines(src, fields, yaml);
    assert ("---")[3..] == "" && TrimSpace("") == "";
  }

  lemma UpsertOpens<V>(src: string, fields: seq<Field>, yaml: string -> Yaml<V>)
    requires fields != [] && WellKeyed(fields)
    ensures var lines := Split(Upsert(src, fields, yaml), NL);
            HeaderEnds(lines, FirstFence(lines, 1))
  {
    UpsertReadable(src, fields, yaml);
    if ReadLines(src, yaml).0.Some? {
      EditOpens(src, fields, yaml);
    } else {
      BlockOpens(src, fields, yaml);
    }
  }

  lemma WrittenSays(lines: seq<string>, c: nat, f: Field)
    requires 1 <= c <= |lines| && Written(lines, c, f)
    ensures HeaderSays(lines, c, f.key, f.value)
  {
    FieldLineSays(f);
    var k := FindKey(lines, 1, c, f.key);
    assert Says(lines[k], f.key, f.value);
  }

  /** Whatever is upserted is found again, with its value, by a reader of the text:
      there is a header, and for each field the first line in it that starts with
      its key is a literal of its value. */
  lemma UpsertSays<V>(src: string, fields: seq<Field>, yaml: string -> Yaml<V>)
    requires fields != [] && WellKeyed(fields)
    ensures SaysAll(Upsert(src, fields, yaml), fields)
  {
    var lines := Split(Upsert(src, fields, yaml), NL);
    var c := FirstFence(lines, 1);
    UpsertReadable(src, fields, yaml);
    UpsertOpens(src, fields, yaml);
    forall i | 0 <= i < |fields| ensures HeaderSays(lines, c, fields[i].key, fields[i].value) {
      WrittenSays(lines, c, fields[i]);
    }
  }

  // ------------------------------------------------------- what upsert keeps

  /** Keys the editor can find again: no colon, no newline, no white space in
      front. */
  predicate Findable(key: string) {
    ':' !in key && NL !in key && !Indented(key)
  }

  predicate Indented(key: string) {
    key != "" && IsSpace(key[0])
  }

  predicate NewlineFree(fields: seq<Field>) {
    forall i :: 0 <= i < |fields| ==> NL !in fields[i].key
  }

  /** Distinct keys the editor can find again. */
  predicate WellKeyed(fields: seq<Field>) {
    && (forall i :: 0 <= i < |fields| ==> Findable(fields[i].key))
    && (forall i, j :: 0 <= i < j < |fields| ==> fields[i].key != fields[j].key)
  }

  lemma FieldLineShape(f: Field)
    ensures FieldLine(f) != "" && FieldLine(f)[|FieldLine(f)| - 1] == '"'
    ensures !IsFence(FieldLine(f))
    ensures NL !in f.key ==> NL !in FieldLine(f)
  {
    TrimSpaceLast(FieldLine(f));
  }

  /** A written line starts, trimmed, with its own key and colon: with any
      findable key it matches that key and no other. */
  lemma FieldLineMatches(f: Field, key: string)
    requires ':' !in f.key && !Indented(f.key) && ':' !in key
    ensures Matches(FieldLine(f), key) <==> key == f.key
  {
    FieldLineTrimmed(f);
    var rest := " \"" + EscapeAll(f.value) + "\"";
    PrefixToColon(key, f.key, rest);
    assert FieldLine(f) == f.key + ":" + rest;
  }

  lemma FieldLineTrimmed(f: Field)
    requires !Indented(f.key)
    ensures TrimSpace(FieldLine(f)) == FieldLine(f)
  {
    var line := FieldLine(f);
    assert line[0] == if f.key == "" then ':' else f.key[0];
    FieldLineShape(f);
    TrimRightFixed(line);
  }

  /** A key with white space in front never matches any line. */
  lemma IndentedNeverMatches(line: string, key: string)
    requires Indented(key)
    ensures !Matches(line, key)
  {
    TrimSpaceHead(line);
    assert (key + ":")[0] == key[0];
  }

  /** Setting one field leaves the fence line and everything after it alone,
      touches no header line but the first that matches, and adds no fence. */
  lemma SetFieldKeeps(lines: seq<string>, c: nat, f: Field)
    requires 1 <= c < |lines| && FirstFence(lines, 1) == c
    ensures var r := SetField(lines, c, f);
            && c <= r.1 <= c + 1
            && r.0[r.1..] == lines[c..]
            && r.0[0] == lines[0]
            && FirstFence(r.0, 1) == r.1
            && (forall i :: 1 <= i < c && i != FindKey(lines, 1, c, f.key) ==> r.0[i] == lines[i])
  {
    FieldLineShape(f);
    var k := FindKey(lines, 1, c, f.key);
    if k < c {
      ReplaceKeeps(lines, c, k, FieldLine(f));
    } else {
      InsertKeeps(lines, c, FieldLine(f));
    }
  }

  lemma ReplaceKeeps(lines: seq<string>, c: nat, k: nat, line: string)
    requires 1 <= k < c < |lines| && FirstFence(lines, 1) == c && !IsFence(line)
    ensures lines[k := line][c..] == lines[c..] && lines[k := line][0] == lines[0]
    ensures FirstFence(lines[k := line], 1) == c
  {
    FirstFenceUnique(lines[k := line], 1, c);
  }

  lemma InsertKeeps(lines: seq<string>, c: nat, line: string)
    requires 1 <= c < |lines| && FirstFence(lines, 1) == c && !IsFence(line)
    ensures var r := lines[..c] + [line] + lines[c..];
            && r[c + 1..] == lines[c..] && r[0] == lines[0]
            && (forall i :: 1 <= i < c ==> r[i] == lines[i])
            && FirstFence(r, 1) == c + 1
  {
    var r := lines[..c] + [line] + lines[c..];
    Inserted(lines, c, line);
    forall i | 1 <= i < c + 1 ensures !IsFence(r[i]) {
      if i < c {
        assert r[i] == lines[i];
      }
    }
    FirstFenceUnique(r, 1, c + 1);
  }

  lemma Inserted(lines: seq<string>, c: nat, line: string)
    requires c < |lines|
    ensures var r := lines[..c] + [line] + lines[c..];
            && r[c + 1..] == lines[c..] && r[c] == line && r[c + 1] == lines[c]
            && forall i :: 0 <= i < c ==> r[i] == lines[i]
  {
  }

  /** The same for a whole list of fields: header lines that set none of the
      keys stay where they are, and the fence and the body are the same lines. */
  lemma {:induction false} SetFieldsKeep(lines: seq<string>, c: nat, fields: seq<Field>)
    requires 1 <= c < |lines| && FirstFence(lines, 1) == c
    ensures var r := SetFields(lines, c, fields);
            && c <= r.1 <= c + |fields|
            && r.0[r.1..] == lines[c..]
            && FirstFence(r.0, 1) == r.1
            && r.0[0] == lines[0]
            && (forall i :: 1 <= i < c && (forall f :: f in fields ==> !Matches(lines[i], f.key)) ==>
                  r.0[i] == lines[i])
    decreases |fields|
  {
    if fields == [] {
    } else {
      var s := SetField(lines, c, fields[0]);
      SetFieldKeeps(lines, c, fields[0]);
      SetFieldsKeep(s.0, s.1, fields[1..]);
      var r := SetFields(lines, c, fields);
      forall i | 1 <= i < c && (forall f :: f in fields ==> !Matches(lines[i], f.key))
        ensures r.0[i] == lines[i]
      {
        assert fields[0] in fields;
        assert FindKey(lines, 1, c, fields[0].key) != i;
        assert s.0[i] == lines[i];
        assert forall f :: f in fields[1..] ==> f in fields;
      }
    }
  }

  /** Keys without a colon: no line can match two of them. */
  predicate ColonFree(fields: seq<Field>) {
    forall i :: 0 <= i < |fields| ==> ':' !in fields[i].key
  }

  /** Where another key is set, the first line with a key stays the first. */
  lemma StillFirst(lines: seq<string>, c: nat, f: Field, key: string)
    requires 1 <= c < |lines| && ':' !in f.key && ':' !in key
    ensures var k, r := FindKey(lines, 1, c, key), SetField(lines, c, f);
            if k < c then FindKey(r.0, 1, r.1, key) == k else FindKey(r.0, 1, r.1, key) >= c
  {
    var j, k := FindKey(lines, 1, c, f.key), FindKey(lines, 1, c, key);
    if j < c {
      if Indented(f.key) { IndentedNeverMatches(lines[j], f.key); }
      FieldLineMatches(f, key);
      if Matches(lines[j], key) { MatchesOneKey(lines[j], f.key, key); }
    }
    var r := SetField(lines, c, f);
    assert forall i :: 1 <= i < c && i != j ==> r.0[i] == lines[i];
    if k < c {
      FindKeyIs(r.0, r.1, key, k);
    } else {
      FindKeyBeyond(r.0, r.1, key, c);
    }
  }

  lemma FindKeyBeyond(lines: seq<string>, c: nat, key: string, k: nat)
    requires 1 <= k <= c <= |lines|
    requires forall i :: 1 <= i < k ==> !Matches(lines[i], key)
    ensures FindKey(lines, 1, c, key) >= k
  {
  }

  /** Setting colon-free fields touches no header line but, for each key, the
      first one that matches it. */
  lemma {:induction false} SetFieldsTouch(lines: seq<string>, c: nat, fields: seq<Field>, i: nat)
    requires 1 <= i < c < |lines| && ColonFree(fields)
    requires forall f :: f in fields ==> FindKey(lines, 1, c, f.key) != i
    ensures i < |SetFields(lines, c, fields).0| && SetFields(lines, c, fields).0[i] == lines[i]
    decreases |fields|
  {
    if fields == [] {
    } else {
      var s := SetField(lines, c, fields[0]);
      assert fields[0] in fields && s.0[i] == lines[i];
      forall f | f in fields[1..] ensures FindKey(s.0, 1, s.1, f.key) != i {
        StillFirst(lines, c, fields[0], f.key);
      }
      SetFieldsTouch(s.0, s.1, fields[1..], i);
    }
  }

  lemma {:induction false} SetFieldsNewlineFree(lines: seq<string>, c: nat, fields: seq<Field>)
    requires 1 <= c < |lines| && NewlineFree(fields)
    requires forall i :: 0 <= i < |lines| ==> NL !in lines[i]
    ensures forall i :: 0 <= i < |SetFields(lines, c, fields).0| ==> NL !in SetFields(lines, c, fields).0[i]
    decreases |fields|
  {
    if fields == [] {
    } else {
      FieldLineShape(fields[0]);
      var s := SetField(lines, c, fields[0]);
      SetFieldsNewlineFree(s.0, s.1, fields[1..]);
    }
  }

  lemma FenceExists<V>(src: string, yaml: string -> Yaml<V>)
    requires ReadLines(src, yaml).0.Some?
    ensures 1 <= FirstFence(Split(src, NL), 1) < |Split(src, NL)|
  {
  }

  /** The lines of the edited document are the edited lines. */
  lemma UpsertLines<V>(src: string, fields: seq<Field>, yaml: string -> Yaml<V>)
    requires fields != [] && NewlineFree(fields) && ReadLines(src, yaml).0.Some?
    ensures var lines := Split(src, NL);
            Split(Upsert(src, fields, yaml), NL) == SetFields(lines, FirstFence(lines, 1), fields).0
  {
    var lines := Split(src, NL);
    FenceExists(src, yaml);
    SplitFree(src, NL);
    SetFieldsNewlineFree(lines, FirstFence(lines, 1), fields);
    SplitJoin(SetFields(lines, FirstFence(lines, 1), fields).0, NL);
  }

  /** After an edit of a document with frontmatter: the fence line and every
      line after it are the same, every header line that sets none of the keys
      is unchanged and in its place, and the first line is unchanged. When no key
      has a colon, a header line changes only if it is the first one that sets one
      of the keys: later lines with the key are left alone. */
  lemma UpsertKeepsLines<V>(src: string, fields: seq<Field>, yaml: string -> Yaml<V>)
    requires NewlineFree(fields) && ReadLines(src, yaml).0.Some?
    ensures var was, now := Split(src, NL), Split(Upsert(src, fields, yaml), NL);
            var c, d := FirstFence(was, 1), FirstFence(now, 1);
            && 1 <= c <= d < |now|
            && now[d..] == was[c..]
            && now[0] == was[0]
            && (forall i :: 1 <= i < c && (forall f :: f in fields ==> !Matches(was[i], f.key)) ==> now[i] == was[i])
            && (ColonFree(fields) ==>
                  forall i :: 1 <= i < c && (forall f :: f in fields ==> FindKey(was, 1, c, f.key) != i) ==>
                    now[i] == was[i])
  {
    var was := Split(src, NL);
    var c := FirstFence(was, 1);
    FenceExists(src, yaml);
    if fields != [] {
      UpsertLines(src, fields, yaml);
      SetFieldsKeep(was, c, fields);
      if ColonFree(fields) {
        forall i: nat | 1 <= i < c && forall f :: f in fields ==> FindKey(was, 1, c, f.key) != i
          ensures SetFields(was, c, fields).0[i] == was[i]
        {
          SetFieldsTouch(was, c, fields, i);
        }
      }
    }
  }

  lemma BodyBehind<V>(src: string, yaml: string -> Yaml<V>, tail: seq<string>)
    requires ReadLines(src, yaml).0.Some?
    requires tail == Split(src, NL)[FirstFence(Split(src, NL), 1)..]
    ensures tail != [] && ReadLines(src, yaml).1 == Join(tail[1..], NL)
  {
    var lines := Split(src, NL);
    var c := FirstFence(lines, 1);
    assert tail[1..] == lines[c + 1..];
  }

  /** Whenever YAML still reads the header after the edit, the body is the very
      same text. */
  lemma UpsertKeepsBody<V>(src: string, fields: seq<Field>, yaml: string -> Yaml<V>)
    requires NewlineFree(fields) && ReadLines(src, yaml).0.Some?
    requires ReadLines(Upsert(src, fields, yaml), yaml).0.Some?
    ensures ReadLines(Upsert(src, fields, yaml), yaml).1 == ReadLines(src, yaml).1
  {
    var out := Upsert(src, fields, yaml);
    UpsertKeepsLines(src, fields, yaml);
    BodyBehind(src, yaml, Split(src, NL)[FirstFence(Split(src, NL), 1)..]);
    BodyBehind(out, yaml, Split(out, NL)[FirstFence(Split(out, NL), 1)..]);
  }

  // --------------------------------------------------- what a document reads as

  lemma DocumentLines(opening: string, header: seq<string>, fence: string, body: string)
    requires NL !in opening && NL !in fence && forall i :: 0 <= i < |header| ==> NL !in header[i]
    ensures Split(opening + "\n" + Terminated(header) + fence + "\n" + body, NL)
            == [opening] + header + [fence] + Split(body, NL)
  {
    var lines := [opening] + header + [fence];
    assert lines[0] == opening && lines[1..] == header + [fence];
    TerminatedSnoc(header, fence);
    assert Terminated(lines) == opening + "\n" + Terminated(header + [fence]);
    assert Terminated(lines) + body == opening + "\n" + Terminated(header) + fence + "\n" + body;
    SplitTerminated(lines, body);
  }

  predicate IsHeader(opening: string, header: seq<string>, fence: string) {
    && NL !in opening && "---" <= opening && TrimSpace(opening[3..]) == ""
    && NL !in fence && (TrimSpace(fence) == "---" || TrimSpace(fence) == "...")
    && forall i :: 0 <= i < |header| ==>
         NL !in header[i] && TrimSpace(header[i]) != "---" && TrimSpace(header[i]) != "..."
  }

  lemma HeaderFence(opening: string, header: seq<string>, fence: string, rest: seq<string>)
    requires IsHeader(opening, header, fence)
    ensures var lines := [opening] + header + [fence] + rest;
            && FirstFence(lines, 1) == |header| + 1 && Opens(lines)
            && lines[1..|header| + 1] == header && lines[|header| + 2..] == rest
  {
    var lines := [opening] + header + [fence] + rest;
    assert lines[|header| + 1] == fence && forall i :: 1 <= i < |header| + 1 ==> lines[i] == header[i - 1];
    FirstFenceUnique(lines, 1, |header| + 1);
  }

  lemma HeaderDecides<V>(text: string, header: seq<string>, opening: string, fence: string, body: string,
                         yaml: string -> Yaml<V>)
    requires IsHeader(opening, header, fence) && Split(text, NL) == [opening] + header + [fence] + Split(body, NL)
    ensures ReadLines(text, yaml) == Decode(text, Terminated(header), body, yaml)
  {
    HeaderFence(opening, header, fence, Split(body, NL));
    JoinSplit(body, NL);
  }

  /** A document with a header reads as what YAML makes of the header, and what
      stands behind the fence; as itself if YAML refuses it. */
  lemma DocumentRead<V>(opening: string, header: seq<string>, fence: string, body: string, yaml: string -> Yaml<V>)
    requires IsHeader(opening, header, fence)
    ensures var text := opening + "\n" + Terminated(header) + fence + "\n" + body;
            ReadLines(text, yaml) == match yaml(Terminated(header))
                                     case Invalid => (None, text)
                                     case Null => (None, body)
                                     case Mapping(fm) => (Some(fm), body)
  {
    DocumentLines(opening, header, fence, body);
    HeaderDecides(opening + "\n" + Terminated(header) + fence + "\n" + body, header, opening, fence, body, yaml);
  }

  /** A text without a header reads as itself. */
  lemma PlainRead<V>(text: string, yaml: string -> Yaml<V>)
    requires forall c :: !HeaderEnds(Split(text, NL), c)
    ensures ReadLines(text, yaml) == (None, text)
  {
    var lines := Split(text, NL);
    assert !HeaderEnds(lines, FirstFence(lines, 1));
  }

  // ------------------------------------------------- nothing of a text is lost

  /** The line sets none of the keys. */
  predicate SetsNone(line: string, fields: seq<Field>) {
    forall i :: 0 <= i < |fields| ==> !(fields[i].key + ":" <= TrimSpace(line))
  }

  /** The text carries src on: all of it, if it has no frontmatter; else its body
      at the end, and every header line that sets none of the keys in its place. */
  ghost predicate CarriesOn<V>(src: string, text: string, fields: seq<Field>, yaml: string -> Yaml<V>) {
    var (fm, body) := ReadLines(src, yaml);
    var was, now := Split(src, NL), Split(text, NL);
    if fm.None? then HasSuffix(text, src)
    else
      && HasSuffix(text, body)
      && forall i, c :: 1 <= i < c && HeaderEnds(was, c) && SetsNone(was[i], fields) ==> i < |now| && now[i] == was[i]
  }

  lemma {:induction false} JoinTail(lines: seq<string>, k: nat)
    requires k <= |lines|
    ensures HasSuffix(Join(lines, NL), Join(lines[k..], NL))
  {
    if k == 0 {
      assert lines[0..] == lines;
    } else if k == |lines| {
    } else {
      JoinTail(lines[1..], k - 1);
      assert lines[1..][k - 1..] == lines[k..];
      assert Join(lines, NL) == lines[0] + [NL] + Join(lines[1..], NL);
    }
  }

  lemma HeaderEndsAtFence(lines: seq<string>, c: nat)
    requires HeaderEnds(lines, c)
    ensures c == FirstFence(lines, 1)
  {
    FirstFenceUnique(lines, 1, c);
  }

  /** The body is the end of the text. */
  lemma ReadIsTail<V>(src: string, yaml: string -> Yaml<V>)
    ensures HasSuffix(src, ReadLines(src, yaml).1)
  {
    var lines := Split(src, NL);
    var c := FirstFence(lines, 1);
    if Opens(lines) && c < |lines| {
      JoinTail(lines, c + 1);
      JoinSplit(src, NL);
      DecodedBody(src, Terminated(lines[1..c]), Join(lines[c + 1..], NL), yaml);
    }
  }

  lemma DecodedBody<V>(src: string, header: string, body: string, yaml: string -> Yaml<V>)
    ensures Decode(src, header, body, yaml).1 in [src, body]
  {
  }

  lemma SuffixOfSuffix(text: string, middle: string, end: string)
    requires HasSuffix(text, middle) && HasSuffix(middle, end)
    ensures HasSuffix(text, end)
  {
    assert text[|text| - |end|..] == text[|text| - |middle|..][|middle| - |end|..];
  }

  lemma EditCarries<V>(src: string, fields: seq<Field>, yaml: string -> Yaml<V>)
    requires fields != [] && NewlineFree(fields) && ReadLines(src, yaml).0.Some?
    ensures CarriesOn(src, Upsert(src, fields, yaml), fields, yaml)
  {
    var text := Upsert(src, fields, yaml);
    var was, now := Split(src, NL), Split(text, NL);
    var c, d := FirstFence(was, 1), FirstFence(now, 1);
    UpsertKeepsLines(src, fields, yaml);
    BodyBehind(src, yaml, was[c..]);
    JoinTail(now, d + 1);
    JoinSplit(text, NL);
    assert now[d + 1..] == now[d..][1..];
    forall i, e: nat | 1 <= i < e && HeaderEnds(was, e) && SetsNone(was[i], fields) ensures i < |now|
        && now[i] == was[i] {
      HeaderEndsAtFence(was, e);
      assert forall f :: f in fields ==> !Matches(was[i], f.key);
    }
  }

  /** An upsert loses nothing of the text it is given. */
  lemma UpsertCarries<V>(src: string, fields: seq<Field>, yaml: string -> Yaml<V>)
    requires fields != [] && NewlineFree(fields)
    ensures CarriesOn(src, Upsert(src, fields, yaml), fields, yaml)
  {
    if ReadLines(src, yaml).0.Some? {
      EditCarries(src, fields, yaml);
    } else {
      assert Upsert(src, fields, yaml) == "---\n" + Terminated(FieldLines(fields)) + "---\n" + src;
    }
  }

  // ----------------------------------------------------------- a new block

  lemma SplitOnto(first: string, more: string, tail: string)
    requires NL !in first
    ensures Split(first + "\n" + more + tail, NL) == [first] + Split(more + tail, NL)
  {
    assert first + "\n" + more + tail == first + [NL] + (more + tail);
    SplitCons(first, NL, more + tail);
  }

  lemma {:induction false} SplitTerminated(lines: seq<string>, tail: string)
    requires forall i :: 0 <= i < |lines| ==> NL !in lines[i]
    ensures Split(Terminated(lines) + tail, NL) == lines + Split(tail, NL)
  {
    if lines == [] {
      assert Terminated(lines) + tail == tail;
    } else {
      SplitTerminated(lines[1..], tail);
      SplitOnto(lines[0], Terminated(lines[1..]), tail);
      Reassemble(lines, Split(tail, NL));
    }
  }

  lemma Reassemble<T>(xs: seq<T>, ys: seq<T>)
    requires xs != []
    ensures [xs[0]] + (xs[1..] + ys) == xs + ys
  {
  }

  lemma {:induction false} FieldLinesAt(fields: seq<Field>)
    ensures |FieldLines(fields)| == |fields|
    ensures forall i :: 0 <= i < |fields| ==> FieldLines(fields)[i] == FieldLine(fields[i])
  {
    if fields == [] {
    } else {
      FieldLinesAt(fields[1..]);
    }
  }

  lemma BlockText(written: seq<string>)
    ensures Terminated(["---"] + written + ["---"]) == "---\n" + Terminated(written) + "---\n"
  {
    var inner := written + ["---"];
    assert ["---"] + written + ["---"] == ["---"] + inner;
    assert (["---"] + inner)[1..] == inner;
    TerminatedSnoc(written, "---");
  }

  lemma BlockFence(written: seq<string>, rest: seq<string>)
    requires forall i :: 0 <= i < |written| ==> !IsFence(written[i])
    ensures FirstFence(["---"] + written + ["---"] + rest, 1) == |written| + 1
  {
    var lines := ["---"] + written + ["---"] + rest;
    TrimRightFixed("---");
    assert lines[|written| + 1] == "---";
    assert forall i :: 1 <= i < |written| + 1 ==> lines[i] == written[i - 1];
    FirstFenceUnique(lines, 1, |written| + 1);
  }

  lemma NewBlockLines<V>(src: string, fields: seq<Field>, yaml: string -> Yaml<V>)
    requires fields != [] && NewlineFree(fields) && ReadLines(src, yaml).0.None?
    ensures Split(Upsert(src, fields, yaml), NL) == ["---"] + FieldLines(fields) + ["---"] + Split(src, NL)
    ensures FirstFence(Split(Upsert(src, fields, yaml), NL), 1) == |fields| + 1
  {
    FieldLinesAt(fields);
    var block := ["---"] + FieldLines(fields) + ["---"];
    forall i | 0 <= i < |fields|
      ensures NL !in FieldLine(fields[i]) && !IsFence(FieldLine(fields[i]))
    {
      FieldLineShape(fields[i]);
    }
    SplitTerminated(block, src);
    BlockText(FieldLines(fields));
    var t := Terminated(FieldLines(fields));
    assert Upsert(src, fields, yaml) == "---\n" + t + "---\n" + src;
    BlockFence(FieldLines(fields), Split(src, NL));
  }

  lemma BlockRead<V>(text: string, written: seq<string>, src: string, yaml: string -> Yaml<V>)
    requires Split(text, NL) == ["---"] + written + ["---"] + Split(src, NL)
    requires FirstFence(Split(text, NL), 1) == |written| + 1
    ensures ReadLines(text, yaml) == Decode(text, Terminated(written), src, yaml)
  {
    var lines := Split(text, NL);
    var c := |written| + 1;
    assert lines[1..c] == written;
    assert lines[c + 1..] == Split(src, NL);
    JoinSplit(src, NL);
    assert lines[0] == "---" && lines[0][3..] == "";
  }

  /** A created block holds exactly the written lines, and the body behind it is
      the whole original source, old fences included. */
  lemma NewBlockBody<V>(src: string, fields: seq<Field>, yaml: string -> Yaml<V>)
    requires fields != [] && NewlineFree(fields) && ReadLines(src, yaml).0.None?
    ensures !yaml(Terminated(FieldLines(fields))).Invalid? ==>
              ReadLines(Upsert(src, fields, yaml), yaml).1 == src
    ensures yaml(Terminated(FieldLines(fields))).Mapping? ==>
              ReadLines(Upsert(src, fields, yaml), yaml).0 == Some(yaml(Terminated(FieldLines(fields))).fields)
  {
    NewBlockLines(src, fields, yaml);
    FieldLinesAt(fields);
    BlockRead(Upsert(src, fields, yaml), FieldLines(fields), src, yaml);
  }

  // ----------------------------------------------- written keys, idempotence

  /** The first header line that sets the key of f is the line f is written as. */
  predicate Written(lines: seq<string>, c: nat, f: Field)
    requires 1 <= c <= |lines|
  {
    var k := FindKey(lines, 1, c, f.key);
    k < c && lines[k] == FieldLine(f)
  }

  lemma FindKeyIs(lines: seq<string>, c: nat, key: string, k: nat)
    requires 1 <= k < c <= |lines| && Matches(lines[k], key)
    requires forall i :: 1 <= i < k ==> !Matches(lines[i], key)
    ensures FindKey(lines, 1, c, key) == k
  {
  }

  lemma SetFieldWrites(lines: seq<string>, c: nat, f: Field)
    requires 1 <= c < |lines| && Findable(f.key)
    ensures Written(SetField(lines, c, f).0, SetField(lines, c, f).1, f)
  {
    var r := SetField(lines, c, f);
    var k := FindKey(lines, 1, c, f.key);
    FieldLineMatches(f, f.key);
    FindKeyIs(r.0, r.1, f.key, k);
  }

  lemma MatchesOneKey(line: string, a: string, b: string)
    requires ':' !in a && ':' !in b && Matches(line, a) && Matches(line, b)
    ensures a == b
  {
    var rest := TrimSpace(line)[|b| + 1..];
    assert TrimSpace(line) == b + ":" + rest;
    PrefixToColon(a, b, rest);
  }

  lemma SetFieldKeepsWritten(lines: seq<string>, c: nat, g: Field, f: Field)
    requires 1 <= c < |lines| && Written(lines, c, f)
    requires Findable(f.key) && Findable(g.key) && f.key != g.key
    ensures Written(SetField(lines, c, g).0, SetField(lines, c, g).1, f)
  {
    var r := SetField(lines, c, g);
    var k := FindKey(lines, 1, c, f.key);
    var j := FindKey(lines, 1, c, g.key);
    FieldLineMatches(g, f.key);
    if j == k {
      MatchesOneKey(lines[k], f.key, g.key);
    }
    FindKeyIs(r.0, r.1, f.key, k);
  }

  lemma {:induction false} SetFieldsKeepWritten(lines: seq<string>, c: nat, fields: seq<Field>, f: Field)
    requires 1 <= c < |lines| && Written(lines, c, f) && Findable(f.key)
    requires forall i :: 0 <= i < |fields| ==> Findable(fields[i].key) && fields[i].key != f.key
    ensures Written(SetFields(lines, c, fields).0, SetFields(lines, c, fields).1, f)
    decreases |fields|
  {
    if fields == [] {
    } else {
      SetFieldKeepsWritten(lines, c, fields[0], f);
      var s := SetField(lines, c, fields[0]);
      SetFieldsKeepWritten(s.0, s.1, fields[1..], f);
    }
  }

  lemma {:induction false} SetFieldsWrite(lines: seq<string>, c: nat, fields: seq<Field>)
    requires 1 <= c < |lines| && WellKeyed(fields)
    ensures var r := SetFields(lines, c, fields);
            forall i :: 0 <= i < |fields| ==> Written(r.0, r.1, fields[i])
    decreases |fields|
  {
    if fields == [] {
    } else {
      var s := SetField(lines, c, fields[0]);
      SetFieldWrites(lines, c, fields[0]);
      SetFieldsKeepWritten(s.0, s.1, fields[1..], fields[0]);
      SetFieldsWrite(s.0, s.1, fields[1..]);
    }
  }

  /** Setting what is already written changes nothing. */
  lemma {:induction false} SetFieldsFixed(lines: seq<string>, c: nat, fields: seq<Field>)
    requires 1 <= c < |lines|
    requires forall i :: 0 <= i < |fields| ==> Written(lines, c, fields[i])
    ensures SetFields(lines, c, fields) == (lines, c)
    decreases |fields|
  {
    if fields == [] {
    } else {
      var k := FindKey(lines, 1, c, fields[0].key);
      assert lines[k := FieldLine(fields[0])] == lines;
      SetFieldsFixed(lines, c, fields[1..]);
    }
  }

  lemma WrittenInBlock(lines: seq<string>, fields: seq<Field>, i: nat)
    requires WellKeyed(fields) && i < |fields| && |lines| > |fields|
    requires forall j :: 1 <= j <= |fields| ==> lines[j] == FieldLine(fields[j - 1])
    ensures Written(lines, |fields| + 1, fields[i])
  {
    forall j | 1 <= j <= i + 1 ensures Matches(lines[j], fields[i].key) <==> j == i + 1 {
      FieldLineMatches(fields[j - 1], fields[i].key);
    }
    FindKeyIs(lines, |fields| + 1, fields[i].key, i + 1);
  }

  lemma EditReadable<V>(src: string, fields: seq<Field>, yaml: string -> Yaml<V>)
    requires fields != [] && WellKeyed(fields) && ReadLines(src, yaml).0.Some?
    ensures AllWritten(Upsert(src, fields, yaml), fields)
  {
    var was := Split(src, NL);
    FenceExists(src, yaml);
    UpsertLines(src, fields, yaml);
    SetFieldsKeep(was, FirstFence(was, 1), fields);
    SetFieldsWrite(was, FirstFence(was, 1), fields);
  }

  /** The document has a fence, and for each field the first header line with
      its key is exactly the line written for it. */
  ghost predicate AllWritten(text: string, fields: seq<Field>) {
    var lines := Split(text, NL);
    var c := FirstFence(lines, 1);
    c < |lines| && forall i :: 0 <= i < |fields| ==> Written(lines, c, fields[i])
  }

  lemma BlockAt(written: seq<string>, rest: seq<string>)
    ensures var lines := ["---"] + written + ["---"] + rest;
            |lines| > |written| && forall j :: 1 <= j <= |written| ==> lines[j] == written[j - 1]
  {
  }

  lemma BlockWritten(lines: seq<string>, fields: seq<Field>)
    requires WellKeyed(fields) && |lines| > |fields|
    requires forall j :: 1 <= j <= |fields| ==> lines[j] == FieldLine(fields[j - 1])
    ensures forall i :: 0 <= i < |fields| ==> Written(lines, |fields| + 1, fields[i])
  {
    forall i | 0 <= i < |fields| ensures Written(lines, |fields| + 1, fields[i]) {
      WrittenInBlock(lines, fields, i);
    }
  }

  lemma BlockLinesReadable(text: string, fields: seq<Field>, rest: seq<string>)
    requires WellKeyed(fields)
    requires Split(text, NL) == ["---"] + FieldLines(fields) + ["---"] + rest
    requires FirstFence(Split(text, NL), 1) == |fields| + 1
    ensures AllWritten(text, fields)
  {
    var lines := Split(text, NL);
    FieldLinesAt(fields);
    BlockAt(FieldLines(fields), rest);
    assert forall j :: 1 <= j <= |fields| ==> lines[j] == FieldLine(fields[j - 1]);
    BlockWritten(lines, fields);
  }

  lemma BlockReadable<V>(src: string, fields: seq<Field>, yaml: string -> Yaml<V>)
    requires fields != [] && WellKeyed(fields) && ReadLines(src, yaml).0.None?
    ensures AllWritten(Upsert(src, fields, yaml), fields)
  {
    NewBlockLines(src, fields, yaml);
    BlockLinesReadable(Upsert(src, fields, yaml), fields, Split(src, NL));
  }

  /** What an upsert wrote is what the next reader of the header finds first. */
  lemma UpsertReadable<V>(src: string, fields: seq<Field>, yaml: string -> Yaml<V>)
    requires fields != [] && WellKeyed(fields)
    ensures AllWritten(Upsert(src, fields, yaml), fields)
  {
    if ReadLines(src, yaml).0.Some? {
      EditReadable(src, fields, yaml);
    } else {
      BlockReadable(src, fields, yaml);
    }
  }

  lemma {:induction false} SetFieldsGrow(lines: seq<string>, c: nat, fields: seq<Field>)
    requires 1 <= c < |lines|
    ensures |SetFields(lines, c, fields).0| >= |lines|
    ensures (exists i :: 0 <= i < |fields| && Indented(fields[i].key)) ==> |SetFields(lines, c, fields).0| > |lines|
    decreases |fields|
  {
    if fields == [] {
    } else {
      var s := SetField(lines, c, fields[0]);
      SetFieldsGrow(s.0, s.1, fields[1..]);
      if Indented(fields[0].key) {
        var k := FindKey(lines, 1, c, fields[0].key);
        if k < c { IndentedNeverMatches(lines[k], fields[0].key); }
      }
    }
  }

  /** Applying the same fields twice equals applying them once exactly when no
      key starts with white space: such a key is trimmed away on reading and is
      appended again by every call. */
  lemma UpsertIdempotent<V>(src: string, fields: seq<Field>, yaml: string -> Yaml<V>)
    requires forall i :: 0 <= i < |fields| ==> ':' !in fields[i].key && NL !in fields[i].key
    requires forall i, j :: 0 <= i < j < |fields| ==> fields[i].key != fields[j].key
    requires ReadLines(Upsert(src, fields, yaml), yaml).0.Some?
    ensures Upsert(Upsert(src, fields, yaml), fields, yaml) == Upsert(src, fields, yaml)
       <==> forall i :: 0 <= i < |fields| ==> !Indented(fields[i].key)
  {
    if fields != [] {
      var once := Upsert(src, fields, yaml);
      var lines := Split(once, NL);
      var c := FirstFence(lines, 1);
      FenceExists(once, yaml);
      if forall i :: 0 <= i < |fields| ==> !Indented(fields[i].key) {
        UpsertReadable(src, fields, yaml);
        SetFieldsFixed(lines, c, fields);
        JoinSplit(once, NL);
      } else {
        IndentedGrows(once, fields, yaml);
      }
    }
  }

  lemma IndentedGrows<V>(once: string, fields: seq<Field>, yaml: string -> Yaml<V>)
    requires NewlineFree(fields) && ReadLines(once, yaml).0.Some?
    requires exists i :: 0 <= i < |fields| && Indented(fields[i].key)
    ensures Upsert(once, fields, yaml) != once
  {
    var lines := Split(once, NL);
    FenceExists(once, yaml);
    UpsertLines(once, fields, yaml);
    SetFieldsGrow(lines, FirstFence(lines, 1), fields);
  }

  /** One such key: " a" set on a note without frontmatter is written once by
      the first call and again by the second. */
  lemma IndentedKeyIsWrittenAgain()
    ensures var yaml := (header: string) => Mapping(map[]);
            var fields := [Field(" a", "v")];
            Upsert(Upsert<string>("body", fields, yaml), fields, yaml) != Upsert("body", fields, yaml)
  {
    var yaml: string -> Yaml<string> := (header: string) => Mapping(map[]);
    var fields := [Field(" a", "v")];
    NeverOpens("body");
    NewBlockBody("body", fields, yaml);
    assert Indented(fields[0].key);
    UpsertIdempotent("body", fields, yaml);
  }

  /** Setting two fields where the first line has both keys leaves the second's
      line there. */
  lemma FirstLineTakesBoth(lines: seq<string>, c: nat, f: Field, g: Field)
    requires 1 < c < |lines| && Matches(lines[1], f.key)
    requires Matches(FieldLine(f), g.key)
    ensures SetFields(lines, c, [f, g]).0 == lines[1 := FieldLine(g)]
  {
    FindKeyIs(lines, c, f.key, 1);
    var s := SetField(lines, c, f);
    FindKeyIs(s.0, c, g.key, 1);
    assert [f, g][1..] == [g] && [g][1..] == [];
    assert SetFields(s.0, s.1, [g]) == SetField(s.0, s.1, g);
  }

  lemma ColonKeyMatches(v: string)
    ensures Matches(FieldLine(Field("a:b", v)), "a:b") && Matches(FieldLine(Field("a:b", v)), "a")
  {
    var f := Field("a:b", v);
    FieldLineTrimmed(f);
    var line := FieldLine(f);
    assert line == "a:b" + ": \"" + EscapeAll(v) + "\"";
    assert line[0] == 'a' && line[1] == ':' && line[2] == 'b' && line[3] == ':';
  }

  lemma ColonKeyLinesDiffer(v: string, w: string)
    ensures FieldLine(Field("a:b", v)) != FieldLine(Field("a", w))
  {
    assert FieldLine(Field("a:b", v))[2] == 'b' && FieldLine(Field("a", w))[2] == ' ';
  }

  /** A key with a colon can have a line that another key takes for its own: "a:b"
      and "a", in that order, set on a note without frontmatter, are both written
      by the first call, and the second call overwrites the one with the other. */
  lemma ColonKeyIsOverwritten<V>(src: string, v: string, w: string, yaml: string -> Yaml<V>)
    requires ReadLines(src, yaml).0.None?
    requires ReadLines(Upsert(src, [Field("a:b", v), Field("a", w)], yaml), yaml).0.Some?
    ensures var fields := [Field("a:b", v), Field("a", w)];
            Upsert(Upsert(src, fields, yaml), fields, yaml) != Upsert(src, fields, yaml)
  {
    var f, g := Field("a:b", v), Field("a", w);
    var once := Upsert(src, [f, g], yaml);
    NewBlockLines(src, [f, g], yaml);
    FieldLinesAt([f, g]);
    var lines := Split(once, NL);
    BlockAt(FieldLines([f, g]), Split(src, NL));
    assert lines[1] == FieldLine(f);
    ColonKeyMatches(v);
    UpsertLines(once, [f, g], yaml);
    FenceExists(once, yaml);
    FirstLineTakesBoth(lines, 3, f, g);
    ColonKeyLinesDiffer(v, w);
    assert lines[1 := FieldLine(g)][1] != lines[1];
  }
}
