/** The search query language: the quoting splitter and the property-filter
    parser of packages/search/index.go, and the printer and token finder of
    apps/web/src/components/SearchDialog.tsx. */
module Query {
  import opened Wrappers
  import opened Text

  const QUOTE: char := '"'

  // --------------------------------------------------------------- splitting

  /** splitQuery's variables: the fields so far, the builder, the quote flag. */
  datatype Splitter = Splitter(fields: seq<string>, b: string, inQuotes: bool)

  const FRESH := Splitter([], "", false)

  function Flush(st: Splitter): Splitter {
    if st.b == "" then st else Splitter(st.fields + [st.b], "", st.inQuotes)
  }

  function Feed(st: Splitter, c: char): Splitter {
    if c == QUOTE then st.(inQuotes := !st.inQuotes)
    else if IsSpace(c) && !st.inQuotes then Flush(st)
    else st.(b := st.b + [c])
  }

  function FeedAll(st: Splitter, s: string): Splitter {
    if s == "" then st else Feed(FeedAll(st, s[..|s| - 1]), s[|s| - 1])
  }

  function Fields(query: string): seq<string> {
    Flush(FeedAll(FRESH, ToLower(query))).fields
  }

  /** splitQuery. */
  method SplitQuery(query: string) returns (fields: seq<string>)
    ensures fields == Fields(query)
  {
    fields := [];
    var b := "";
    var inQuotes := false;
    var lower := ToLower(query);
    assert lower[..0] == "";
    for i := 0 to |lower|
      invariant Splitter(fields, b, inQuotes) == FeedAll(FRESH, lower[..i])
    {
      var r := lower[i];
      assert lower[..i + 1][..i] == lower[..i];
      if r == QUOTE {
        inQuotes := !inQuotes;
      } else if IsSpace(r) && !inQuotes {
        if b != "" {
          fields := fields + [b];
          b := "";
        }
      } else {
        b := b + [r];
      }
    }
    assert lower[..|lower|] == lower;
    if b != "" {
      fields := fields + [b];
    }
  }

  lemma {:induction false} FeedConcat(st: Splitter, s: string, t: string)
    ensures FeedAll(st, s + t) == FeedAll(FeedAll(st, s), t)
  {
    if t == "" {
      assert s + t == s;
    } else {
      assert (s + t)[..|s + t| - 1] == s + t[..|t| - 1];
      FeedConcat(st, s, t[..|t| - 1]);
    }
  }

  predicate QuoteFree(s: string) {
    forall i :: 0 <= i < |s| ==> s[i] != QUOTE
  }

  predicate SpaceFree(s: string) {
    forall i :: 0 <= i < |s| ==> !IsSpace(s[i])
  }

  /** Quote-free text is kept as it is, inside quotes or when it has no space. */
  lemma {:induction false} FeedText(st: Splitter, s: string)
    requires QuoteFree(s) && (st.inQuotes || SpaceFree(s))
    ensures FeedAll(st, s) == st.(b := st.b + s)
  {
    if s == "" {
    } else {
      FeedText(st, s[..|s| - 1]);
      assert s == s[..|s| - 1] + [s[|s| - 1]];
      assert st.b + s == st.b + s[..|s| - 1] + [s[|s| - 1]];
    }
  }

  lemma FeedOne(st: Splitter, c: char)
    ensures FeedAll(st, [c]) == Feed(st, c)
  {
    assert [c][..0] == "";
    assert FeedAll(st, [c][..0]) == st;
  }

  lemma ToLowerKeeps(s: string)
    ensures QuoteFree(ToLower(s)) <==> QuoteFree(s)
    ensures SpaceFree(ToLower(s)) <==> SpaceFree(s)
  {
    assert forall i :: 0 <= i < |s| ==> (ToLower(s)[i] == QUOTE <==> s[i] == QUOTE);
    assert forall i :: 0 <= i < |s| ==> (IsSpace(ToLower(s)[i]) <==> IsSpace(s[i]));
  }

  /** No field ever holds a quote. */
  lemma {:induction false} FeedDropsQuotes(s: string)
    ensures var st := FeedAll(FRESH, s);
            QuoteFree(st.b) && forall i :: 0 <= i < |st.fields| ==> QuoteFree(st.fields[i])
  {
    if s == "" {
    } else {
      FeedDropsQuotes(s[..|s| - 1]);
    }
  }

  // ---------------------------------------------------------------- printing

  predicate HasSpace(s: string) {
    exists i :: 0 <= i < |s| && IsSpace(s[i])
  }

  /** A value, quoted when it holds white space. */
  function Quoted(value: string): string {
    if HasSpace(value) then "\"" + value + "\"" else value
  }

  /** propertyQuery(key, value). */
  function PropertyQuery(key: string, value: string): string {
    "prop:" + key + "=" + Quoted(value)
  }

  /** What suggestFor inserts for a chosen value and operator. */
  function Suggestion(key: string, op: string, value: string): string {
    "prop:" + key + op + Quoted(value)
  }

  lemma FeedQuoted(st: Splitter, v: string)
    requires QuoteFree(v) && !st.inQuotes
    ensures FeedAll(st, [QUOTE] + v + [QUOTE]) == st.(b := st.b + v)
  {
    var open := st.(inQuotes := true);
    FeedConcat(st, [QUOTE] + v, [QUOTE]);
    FeedConcat(st, [QUOTE], v);
    FeedOne(st, QUOTE);
    FeedText(open, v);
    FeedOne(open.(b := st.b + v), QUOTE);
  }

  lemma FeedValue(st: Splitter, value: string)
    requires !st.inQuotes && QuoteFree(value)
    ensures FeedAll(st, ToLower(Quoted(value))) == st.(b := st.b + ToLower(value))
  {
    var v := ToLower(value);
    ToLowerKeeps(value);
    if HasSpace(value) {
      assert ToLower(Quoted(value)) == [QUOTE] + v + [QUOTE];
      FeedQuoted(st, v);
    } else {
      FeedText(st, v);
    }
  }

  /** Fed to a splitter between fields, a prefix without spaces or quotes and a
      printed value come out as one field in the builder. */
  lemma FeedPrinted(st: Splitter, pre: string, value: string)
    requires st.b == "" && !st.inQuotes
    requires QuoteFree(pre) && SpaceFree(pre) && QuoteFree(value)
    ensures FeedAll(st, ToLower(pre + Quoted(value))) == st.(b := ToLower(pre + value))
  {
    var p := ToLower(pre);
    ToLowerKeeps(pre);
    LowerAppend(pre, Quoted(value));
    LowerAppend(pre, value);
    FeedConcat(st, p, ToLower(Quoted(value)));
    FeedText(st, p);
    assert "" + p == p;
    FeedValue(st.(b := p), value);
  }

  /** A printed item splits back into exactly one field. */
  lemma PrintedSplits(pre: string, value: string)
    requires QuoteFree(pre) && SpaceFree(pre) && pre != "" && QuoteFree(value)
    ensures Fields(pre + Quoted(value)) == [ToLower(pre + value)]
  {
    FeedPrinted(FRESH, pre, value);
  }

  // ----------------------------------------------------------------- filters

  datatype PropertyFilter = PropertyFilter(key: string, value: string, op: string)

  const PROPERTY_OPS: seq<string> := [">=", "<=", "=", ">", "<", ":"]

  predicate IsOpChar(c: char) {
    c == '=' || c == '>' || c == '<' || c == ':'
  }

  predicate OpFree(s: string) {
    forall i :: 0 <= i < |s| ==> !IsOpChar(s[i])
  }

  /** strings.Index. */
  function IndexOfText(s: string, t: string): (i: int)
    ensures -1 <= i <= |s|
    ensures i >= 0 ==> t <= s[i..]
  {
    if t <= s then 0
    else if s == "" then -1
    else
      var j := IndexOfText(s[1..], t);
      if j < 0 then -1 else j + 1
  }

  /** The first place where t occurs in s. */
  predicate FirstAt(s: string, t: string, i: nat) {
    i <= |s| && t <= s[i..] && forall j :: 0 <= j < i ==> !(t <= s[j..])
  }

  lemma {:induction false} IndexIsFirst(s: string, t: string)
    requires t != ""
    ensures var i := IndexOfText(s, t);
            if i >= 0 then FirstAt(s, t, i) else forall j :: 0 <= j <= |s| ==> !(t <= s[j..])
  {
    if t <= s {
      assert s[0..] == s;
    } else if s == "" {
    } else {
      IndexIsFirst(s[1..], t);
      assert s[0..] == s;
      assert forall j :: 1 <= j <= |s| ==> s[j..] == s[1..][j - 1..];
    }
  }

  lemma FirstIsIndex(s: string, t: string, i: nat)
    requires t != ""
    ensures FirstAt(s, t, i) <==> IndexOfText(s, t) == i
  {
    IndexIsFirst(s, t);
  }

  /** The loop's choice among the first n operators: the least first occurrence
      that is not at the start of the text, the first listed on a tie. An operator
      that starts the text is passed over, later occurrences and all. */
  function BestOp(raw: string, n: nat): (r: (int, string))
    requires n <= |PROPERTY_OPS|
    ensures -1 <= r.0 && r.0 + |r.1| <= |raw| && (r.0 < 0 ==> r.1 == "")
  {
    if n == 0 then (-1, "")
    else
      var best := BestOp(raw, n - 1);
      var i := IndexOfText(raw, PROPERTY_OPS[n - 1]);
      if i > 0 && (best.0 < 0 || i < best.0) then (i, PROPERTY_OPS[n - 1]) else best
  }

  function Parsed(raw: string): Option<PropertyFilter> {
    var best := BestOp(raw, |PROPERTY_OPS|);
    if best.0 < 0 then None
    else Some(PropertyFilter(raw[..best.0], raw[best.0 + |best.1|..], best.1))
  }

  /** The filter the text is cut into: its operator is the one whose first
      occurrence comes earliest behind the first character, the longer one where
      two begin together. */
  ghost predicate CutAs(raw: string, f: PropertyFilter) {
    && f.op in PROPERTY_OPS && f.key != "" && raw == f.key + f.op + f.value
    && FirstAt(raw, f.op, |f.key|)
    && forall op, i: nat :: op in PROPERTY_OPS && i > 0 && FirstAt(raw, op, i) ==>
         |f.key| < i || (|f.key| == i && |op| <= |f.op|)
  }

  /** Every operator is missing or starts the text. */
  ghost predicate Uncut(raw: string) {
    forall op, i: nat :: op in PROPERTY_OPS && i > 0 ==> !FirstAt(raw, op, i)
  }

  /** The operator at the place is behind no other: none of the others begins
      earlier, and none that begins there is longer. */
  predicate Beats(raw: string, at: int, best: string, op: string) {
    var i := IndexOfText(raw, op);
    i > 0 ==> at < i || (at == i && |op| <= |best|)
  }

  /** Of two operators that begin at one place the longer is listed first. */
  lemma LongerFirst(s: string, k: nat, m: nat)
    requires k <= m < |PROPERTY_OPS| && PROPERTY_OPS[k] <= s && PROPERTY_OPS[m] <= s
    ensures |PROPERTY_OPS[m]| <= |PROPERTY_OPS[k]|
  {
  }

  lemma {:induction false} BestIsFound(raw: string, n: nat) returns (k: nat)
    requires n <= |PROPERTY_OPS| && BestOp(raw, n).0 >= 0
    ensures k < n && PROPERTY_OPS[k] == BestOp(raw, n).1 && IndexOfText(raw, BestOp(raw, n).1) == BestOp(raw, n).0 > 0
  {
    k := n - 1;
    var best, op := BestOp(raw, k), PROPERTY_OPS[k];
    var i := IndexOfText(raw, op);
    if !(i > 0 && (best.0 < 0 || i < best.0)) {
      assert BestOp(raw, n) == best;
      k := BestIsFound(raw, k);
    }
  }

  lemma {:induction false} BestBeats(raw: string, n: nat, m: nat)
    requires m < n <= |PROPERTY_OPS|
    ensures var best := BestOp(raw, n);
            if best.0 < 0 then IndexOfText(raw, PROPERTY_OPS[m]) <= 0 else Beats(raw, best.0, best.1, PROPERTY_OPS[m])
  {
    if m == n - 1 {
      BestTies(raw, n);
    } else {
      BestBeats(raw, n - 1, m);
    }
  }

  /** An operator that does not replace the best one, at the same place, is not
      longer. */
  lemma BestTies(raw: string, n: nat)
    requires 0 < n <= |PROPERTY_OPS|
    ensures var best, op := BestOp(raw, n - 1), PROPERTY_OPS[n - 1];
            best.0 >= 0 && best.0 == IndexOfText(raw, op) ==> |op| <= |best.1|
  {
    var best := BestOp(raw, n - 1);
    if best.0 >= 0 && best.0 == IndexOfText(raw, PROPERTY_OPS[n - 1]) {
      var k := BestIsFound(raw, n - 1);
      LongerFirst(raw[best.0..], k, n - 1);
    }
  }

  lemma ParsedIsCut(raw: string)
    ensures match Parsed(raw)
            case None => Uncut(raw)
            case Some(f) => CutAs(raw, f)
  {
    var n := |PROPERTY_OPS|;
    var best := BestOp(raw, n);
    forall op, i: nat | op in PROPERTY_OPS && i > 0 && FirstAt(raw, op, i)
      ensures best.0 >= 0 && (best.0 < i || (best.0 == i && |op| <= |best.1|))
    {
      FirstIsIndex(raw, op, i);
      var m :| 0 <= m < n && PROPERTY_OPS[m] == op;
      BestBeats(raw, n, m);
    }
    if best.0 >= 0 {
      var k := BestIsFound(raw, n);
      FirstIsIndex(raw, best.1, best.0);
      CutHere(raw, best.0, best.1);
    }
  }

  lemma CutHere(raw: string, at: nat, op: string)
    requires at <= |raw| && op <= raw[at..]
    ensures at + |op| <= |raw| && raw == raw[..at] + op + raw[at + |op|..]
  {
    assert op == raw[at..][..|op|];
  }

  lemma CutOnce(raw: string, f: PropertyFilter, g: PropertyFilter)
    requires CutAs(raw, f) && CutAs(raw, g)
    ensures f == g
  {
    assert f.key == raw[..|f.key|] && g.key == raw[..|g.key|];
    assert f.op == raw[|f.key|..|f.key| + |f.op|] && g.op == raw[|g.key|..|g.key| + |g.op|];
    assert f.value == raw[|f.key| + |f.op|..] && g.value == raw[|g.key| + |g.op|..];
  }

  /** What the parser reads, for every text: the one cut there is, and nothing
      exactly when every operator is missing or starts the text. */
  lemma ParsedExactly(raw: string, f: PropertyFilter)
    ensures Parsed(raw) == Some(f) <==> CutAs(raw, f)
    ensures Parsed(raw).None? <==> Uncut(raw)
  {
    ParsedIsCut(raw);
    if CutAs(raw, f) {
      assert !Uncut(raw);
      CutOnce(raw, f, Parsed(raw).value);
    }
  }

  /** An operator in front hides its later occurrences. */
  lemma LeadingOperatorHides()
    ensures Parsed("=a=b").None?
  {
    var raw := "=a=b";
    assert raw[0] == '=' && raw[1] == 'a' && raw[2] == '=' && raw[3] == 'b';
    forall op, i: nat | op in PROPERTY_OPS && i > 0 ensures !FirstAt(raw, op, i) {
      if i <= |raw| && op <= raw[i..] {
        assert raw[i..][0] == op[0];
        assert "=" <= raw[0..];
      }
    }
    ParsedIsCut(raw);
  }

  /** parsePropertyFilter. */
  method ParsePropertyFilter(raw: string) returns (filter: Option<PropertyFilter>)
    ensures filter == Parsed(raw)
    ensures match filter
            case None => Uncut(raw)
            case Some(f) => CutAs(raw, f)
  {
    var at, op := -1, "";
    for n := 0 to |PROPERTY_OPS|
      invariant (at, op) == BestOp(raw, n)
    {
      var i := IndexOfText(raw, PROPERTY_OPS[n]);
      if i > 0 && (at < 0 || i < at) {
        at, op := i, PROPERTY_OPS[n];
      }
    }
    assert BestOp(raw, |PROPERTY_OPS|) == (at, op);
    filter := if at < 0 then None else Some(PropertyFilter(raw[..at], raw[at + |op|..], op));
    ParsedIsCut(raw);
  }

  /** The first place an operator can stand is right after an operator-free key. */
  lemma {:induction false} IndexAfterKey(key: string, rest: string, op: string)
    requires OpFree(key) && op in PROPERTY_OPS
    ensures var i := IndexOfText(key + rest, op);
            && (i < 0 || i >= |key|)
            && (i == |key| <==> op <= rest)
  {
    if key == "" {
      assert key + rest == rest;
    } else {
      assert op[0] != key[0];
      assert (key + rest)[0] == key[0];
      assert (key + rest)[1..] == key[1..] + rest;
      IndexAfterKey(key[1..], rest, op);
    }
  }

  /** Which operators the text op + value begins with. */
  lemma PrefixOfOps(op: string, value: string)
    requires op in PROPERTY_OPS
    ensures var rest := op + value;
            && (">=" <= rest <==> op == ">=" || (op == ">" && "=" <= value))
            && ("<=" <= rest <==> op == "<=" || (op == "<" && "=" <= value))
            && ("=" <= rest <==> op == "=")
            && (">" <= rest <==> op == ">" || op == ">=")
            && ("<" <= rest <==> op == "<" || op == "<=")
            && (":" <= rest <==> op == ":")
  {
    var rest := op + value;
    assert rest[0] == op[0];
    if |op| == 2 {
      assert rest[1] == op[1];
    } else if value != "" {
      assert rest[1] == value[0];
    }
  }

  // -------------------------------------------------------------- round trip

  /** The query text is read as one filter and nothing else. */
  ghost predicate ReadsAs(query: string, filter: PropertyFilter) {
    var fields := Fields(query);
    && |fields| == 1
    && "prop:" <= fields[0] && !("tag:" <= fields[0]) && !("path:" <= fields[0])
    && Parsed(TrimPrefix(fields[0], "prop:")) == Some(filter)
  }

  /** A key can stand before the operator: it is not empty, the operator does not
      occur before its end, and no operator that could be taken instead first
      occurs inside it. */
  predicate KeyCuts(key: string, op: string) {
    && key != "" && IndexOfText(key + op, op) == |key|
    && forall n :: 0 <= n < |PROPERTY_OPS| ==> !(0 < IndexOfText(key + op, PROPERTY_OPS[n]) < |key|)
  }

  /** And it comes through the splitter, without quotes and spaces. */
  predicate KeyReads(key: string, op: string) {
    KeyCuts(key, op) && QuoteFree(key) && SpaceFree(key)
  }

  /** The value turns > or < into >= or <=. */
  predicate Lengthens(op: string, value: string) {
    (op == ">" || op == "<") && "=" <= value
  }

  /** Before the end of the key, the value does not matter. */
  lemma OccursInKey(key: string, op: string, value: string, t: string, j: nat)
    requires op in PROPERTY_OPS && t in PROPERTY_OPS && j < |key|
    ensures t <= (key + op + value)[j..] <==> t <= (key + op)[j..]
  {
    var short, long := (key + op)[j..], (key + op + value)[j..];
    assert |t| <= |short|;
    assert forall i :: 0 <= i < |t| ==> long[i] == short[i];
  }

  lemma SameFirst(s: string, t: string, u: string, i: nat)
    requires i <= |s| && i <= |t| && forall j: nat :: j <= i ==> (u <= s[j..] <==> u <= t[j..])
    ensures FirstAt(s, u, i) <==> FirstAt(t, u, i)
  {
  }

  lemma FirstInKey(key: string, op: string, value: string, t: string, i: nat)
    requires op in PROPERTY_OPS && t in PROPERTY_OPS && i < |key|
    ensures FirstAt(key + op + value, t, i) <==> FirstAt(key + op, t, i)
  {
    forall j: nat | j <= i ensures t <= (key + op + value)[j..] <==> t <= (key + op)[j..] {
      OccursInKey(key, op, value, t, j);
    }
    SameFirst(key + op + value, key + op, t, i);
  }

  lemma BehindKey(key: string, op: string, value: string)
    ensures op <= (key + op + value)[|key|..] && op <= (key + op)[|key|..]
  {
    assert (key + op + value)[|key|..] == op + value && (key + op)[|key|..] == op;
  }

  lemma FirstBehindKey(key: string, op: string, value: string)
    requires op in PROPERTY_OPS
    ensures FirstAt(key + op + value, op, |key|) <==> IndexOfText(key + op, op) == |key|
  {
    FirstIsIndex(key + op, op, |key|);
    forall j: nat | j <= |key| ensures op <= (key + op + value)[j..] <==> op <= (key + op)[j..] {
      if j < |key| {
        OccursInKey(key, op, value, op, j);
      } else {
        BehindKey(key, op, value);
      }
    }
    SameFirst(key + op + value, key + op, op, |key|);
  }

  /** No operator that begins where op was written is longer, unless the value
      makes it so. */
  lemma LongestHere(op: string, value: string, t: string)
    requires op in PROPERTY_OPS && t in PROPERTY_OPS && t <= op + value && !Lengthens(op, value)
    ensures |t| <= |op|
  {
    PrefixOfOps(op, value);
  }

  lemma LongerHere(key: string, op: string, value: string)
    requires op in PROPERTY_OPS && Lengthens(op, value) && FirstAt(key + op + value, op, |key|)
    ensures op + "=" in PROPERTY_OPS && FirstAt(key + op + value, op + "=", |key|)
  {
    var raw := key + op + value;
    assert raw[|key|..] == op + value;
    assert op + "=" == ">=" || op + "=" == "<=";
    forall j: nat | j < |key| ensures !(op + "=" <= raw[j..]) {
      assert op <= op + "=";
    }
  }

  lemma CutNeeds(key: string, op: string, value: string)
    requires CutAs(key + op + value, PropertyFilter(key, value, op))
    ensures KeyCuts(key, op) && !Lengthens(op, value)
  {
    FirstBehindKey(key, op, value);
    if Lengthens(op, value) {
      LongerHere(key, op, value);
    }
    forall n | 0 <= n < |PROPERTY_OPS| ensures !(0 < IndexOfText(key + op, PROPERTY_OPS[n]) < |key|) {
      var i := IndexOfText(key + op, PROPERTY_OPS[n]);
      if 0 < i < |key| {
        FirstIsIndex(key + op, PROPERTY_OPS[n], i);
        FirstInKey(key, op, value, PROPERTY_OPS[n], i);
      }
    }
  }

  /** The text is cut where it was put together exactly under these conditions. */
  lemma CutBack(key: string, op: string, value: string)
    requires op in PROPERTY_OPS
    ensures CutAs(key + op + value, PropertyFilter(key, value, op)) <==> KeyCuts(key, op) && !Lengthens(op, value)
  {
    var raw, f := key + op + value, PropertyFilter(key, value, op);
    FirstBehindKey(key, op, value);
    assert raw[|key|..] == op + value;
    if CutAs(raw, f) {
      CutNeeds(key, op, value);
    }
    if KeyCuts(key, op) && !Lengthens(op, value) {
      forall t, i: nat | t in PROPERTY_OPS && i > 0 && FirstAt(raw, t, i)
        ensures |key| < i || (|key| == i && |t| <= |op|)
      {
        NoOtherCut(key, op, value, t, i);
      }
    }
  }

  lemma NoOtherCut(key: string, op: string, value: string, t: string, i: nat)
    requires op in PROPERTY_OPS && KeyCuts(key, op) && !Lengthens(op, value)
    requires t in PROPERTY_OPS && i > 0 && FirstAt(key + op + value, t, i)
    ensures |key| < i || (|key| == i && |t| <= |op|)
  {
    if i < |key| {
      FirstInKey(key, op, value, t, i);
      FirstIsIndex(key + op, t, i);
    } else if i == |key| {
      assert (key + op + value)[i..] == op + value;
      LongestHere(op, value, t);
    }
  }

  /** Key, operator and value are read back, for every key and all six operators,
      exactly when the key can stand before the operator and the value does not
      turn > or < into >= or <=. */
  lemma ParseBack(key: string, op: string, value: string)
    requires op in PROPERTY_OPS
    ensures Parsed(key + op + value) == Some(PropertyFilter(key, value, op))
            <==> KeyCuts(key, op) && !Lengthens(op, value)
  {
    ParsedExactly(key + op + value, PropertyFilter(key, value, op));
    CutBack(key, op, value);
  }

  lemma LowerOps(op: string)
    requires op in PROPERTY_OPS
    ensures ToLower(op) == op && QuoteFree(op) && SpaceFree(op)
  {
  }

  lemma {:induction false} LowerIndex(s: string, t: string)
    requires t in PROPERTY_OPS
    ensures IndexOfText(ToLower(s), t) == IndexOfText(s, t)
  {
    assert t <= ToLower(s) <==> t <= s;
    if t <= s || s == "" {
    } else {
      LowerIndex(s[1..], t);
      assert ToLower(s)[1..] == ToLower(s[1..]);
    }
  }

  lemma LowerKey(key: string, op: string)
    requires op in PROPERTY_OPS
    ensures KeyReads(ToLower(key), op) <==> KeyReads(key, op)
  {
    ToLowerKeeps(key);
    LowerAppend(key, op);
    LowerOps(op);
    forall n | 0 <= n < |PROPERTY_OPS|
      ensures IndexOfText(ToLower(key) + op, PROPERTY_OPS[n]) == IndexOfText(key + op, PROPERTY_OPS[n])
    {
      LowerIndex(key + op, PROPERTY_OPS[n]);
    }
    LowerIndex(key + op, op);
  }

  lemma {:induction false} FieldsGrow(st: Splitter, s: string)
    ensures |FeedAll(st, s).fields| >= |st.fields|
    ensures |Flush(FeedAll(st, s)).fields| >= |Flush(st).fields|
  {
    if s == "" {
    } else {
      FieldsGrow(st, s[..|s| - 1]);
    }
  }

  lemma FeedTwo(p: string, c: char, q: string, rest: string)
    requires p != "" && QuoteFree(p) && SpaceFree(p) && IsSpace(c)
    requires q != "" && q[|q| - 1] != QUOTE && !IsSpace(q[|q| - 1])
    ensures |Flush(FeedAll(FRESH, p + [c] + q + rest)).fields| >= 2
  {
    FeedText(FRESH, p);
    assert "" + p == p;
    FeedConcat(FRESH, p, [c]);
    var st := FeedAll(FRESH, p + [c]);
    FeedOne(FRESH.(b := p), c);
    assert st == Splitter([p], "", false);
    FieldsGrow(st, q);
    FeedConcat(FRESH, p + [c], q);
    FeedConcat(FRESH, p + [c] + q, rest);
    FieldsGrow(FeedAll(st, q), rest);
  }

  lemma LowerParts(p: string, c: char, q: string, rest: string)
    ensures ToLower(p + [c] + q + rest) == ToLower(p) + [LowerChar(c)] + ToLower(q) + ToLower(rest)
  {
  }

  lemma SuggestionParts(key: string, op: string, value: string, i: nat)
    requires i < |key|
    ensures Suggestion(key, op, value) == ("prop:" + key[..i]) + [key[i]] + (key[i + 1..] + op) + Quoted(value)
  {
    assert key == key[..i] + [key[i]] + key[i + 1..];
  }

  /** A space in the key ends a field before the operator has come. */
  lemma SpacedKeySplits(key: string, op: string, value: string, i: nat)
    requires op in PROPERTY_OPS && QuoteFree(key)
    requires i < |key| && IsSpace(key[i]) && SpaceFree(key[..i])
    ensures |Fields(Suggestion(key, op, value))| >= 2
  {
    var p, q := "prop:" + key[..i], key[i + 1..] + op;
    ToLowerKeeps(p);
    var last := ToLower(q)[|q| - 1];
    assert IsOpChar(q[|q| - 1]) && last == q[|q| - 1];
    FeedTwo(ToLower(p), LowerChar(key[i]), ToLower(q), ToLower(Quoted(value)));
    SuggestionParts(key, op, value, i);
    LowerParts(p, key[i], q, Quoted(value));
  }

  lemma {:induction false} FirstSpace(s: string) returns (i: nat)
    requires !SpaceFree(s)
    ensures i < |s| && IsSpace(s[i]) && SpaceFree(s[..i])
  {
    if IsSpace(s[0]) {
      i := 0;
    } else {
      i := FirstSpace(s[1..]);
      i := i + 1;
      assert forall j :: 0 < j < i ==> s[j] == s[1..][j - 1];
      assert s[i] == s[1..][i - 1];
    }
  }

  /** A filter printed by the dialog, for any key, any value and any of the six
      operators, is read back as itself in lower case exactly when the key reads,
      the value has no quote, and the value does not turn > or < into >= or <=. */
  lemma SuggestionRoundTrip(key: string, op: string, value: string)
    requires op in PROPERTY_OPS
    ensures ReadsAs(Suggestion(key, op, value), PropertyFilter(ToLower(key), ToLower(value), op))
       <==> KeyReads(key, op) && QuoteFree(value) && !Lengthens(op, value)
  {
    var query, f := Suggestion(key, op, value), PropertyFilter(ToLower(key), ToLower(value), op);
    ToLowerKeeps(key);
    ToLowerKeeps(value);
    if !QuoteFree(key) || !QuoteFree(value) {
      if ReadsAs(query, f) {
        QuotesAreLost(query, f);
      }
    } else if !SpaceFree(key) {
      var i := FirstSpace(key);
      SpacedKeySplits(key, op, value, i);
    } else {
      SuggestionSplits(key, op, value);
      ParseBack(ToLower(key), op, ToLower(value));
      LowerKey(key, op);
      assert "=" <= ToLower(value) <==> "=" <= value;
    }
  }

  lemma QuotesAreLost(query: string, filter: PropertyFilter)
    requires ReadsAs(query, filter)
    ensures QuoteFree(filter.key) && QuoteFree(filter.value)
  {
    FeedDropsQuotes(ToLower(query));
    var st := FeedAll(FRESH, ToLower(query));
    assert Fields(query)[0] == if st.fields == [] then st.b else st.fields[0];
    ValueInside(TrimPrefix(Fields(query)[0], "prop:"));
  }

  lemma SuggestionSplits(key: string, op: string, value: string)
    requires QuoteFree(key) && SpaceFree(key) && op in PROPERTY_OPS && QuoteFree(value)
    ensures var fields := Fields(Suggestion(key, op, value));
            && |fields| == 1
            && "prop:" <= fields[0] && !("tag:" <= fields[0]) && !("path:" <= fields[0])
            && TrimPrefix(fields[0], "prop:") == ToLower(key) + op + ToLower(value)
  {
    var pre := "prop:" + key + op;
    LowerOps(op);
    assert QuoteFree(pre) && SpaceFree(pre);
    PrintedSplits(pre, value);
    LowerAppend(pre, value);
    LowerAppend("prop:" + key, op);
    LowerAppend("prop:", key);
    assert ToLower("prop:") == "prop:";
    var rest := ToLower(key) + op + ToLower(value);
    assert ToLower(pre + value) == "prop:" + rest;
    OnlyProp(rest);
  }

  lemma OnlyProp(rest: string)
    ensures var field := "prop:" + rest;
            "prop:" <= field && !("tag:" <= field) && !("path:" <= field) && TrimPrefix(field, "prop:") == rest
  {
    var field := "prop:" + rest;
    assert field[0] == 'p' && field[1] == 'r';
  }

  /** A parsed key and value are parts of what was parsed. */
  lemma ValueInside(raw: string)
    requires Parsed(raw).Some? && QuoteFree(raw)
    ensures QuoteFree(Parsed(raw).value.key) && QuoteFree(Parsed(raw).value.value)
  {
  }

  /** propertyQuery and the parser undo each other, for every key and value,
      exactly when the key reads and the value has no quote. */
  lemma PropertyQueryRoundTrip(key: string, value: string)
    ensures ReadsAs(PropertyQuery(key, value), PropertyFilter(ToLower(key), ToLower(value), "="))
       <==> KeyReads(key, "=") && QuoteFree(value)
  {
    assert PropertyQuery(key, value) == Suggestion(key, "=", value);
    SuggestionRoundTrip(key, "=", value);
  }

  lemma {:induction false} OpFreeIndex(key: string, op: string, t: string)
    requires OpFree(key) && op in PROPERTY_OPS && t in PROPERTY_OPS
    ensures IndexOfText(key + op, t) < 0 || IndexOfText(key + op, t) >= |key|
    ensures IndexOfText(key + op, op) == |key|
  {
    IndexAfterKey(key, op, t);
    IndexAfterKey(key, op, op);
  }

  /** Every key without operator characters can stand before any operator. */
  lemma PlainKeyCuts(key: string, op: string)
    requires key != "" && OpFree(key) && op in PROPERTY_OPS
    ensures KeyCuts(key, op)
  {
    forall n | 0 <= n < |PROPERTY_OPS| ensures !(0 < IndexOfText(key + op, PROPERTY_OPS[n]) < |key|) {
      OpFreeIndex(key, op, PROPERTY_OPS[n]);
    }
    OpFreeIndex(key, op, op);
  }

  /** A key with a space, and one with an operator inside: the property chips of
      a note print such queries, and they do not read back. */
  lemma KeysThatDoNotRead(value: string)
    ensures !ReadsAs(PropertyQuery("due date", value), PropertyFilter("due date", ToLower(value), "="))
    ensures !ReadsAs(PropertyQuery("a:b", value), PropertyFilter("a:b", ToLower(value), "="))
  {
    var due, ab := "due date", "a:b";
    assert ToLower(due) == due && ToLower(ab) == ab;
    assert IsSpace(due[3]);
    PropertyQueryRoundTrip(due, value);
    var raw := ab + "=";
    assert raw[1..] == ":b=" && raw[0..] == raw;
    FirstIsIndex(raw, ":", 1);
    assert PROPERTY_OPS[5] == ":";
    PropertyQueryRoundTrip(ab, value);
  }

  // ------------------------------------------------------------ the first field

  predicate IsLower(s: string) {
    forall i :: 0 <= i < |s| ==> LowerChar(s[i]) == s[i]
  }

  /** All that was read so far is in lower case. */
  predicate LowerState(st: Splitter) {
    IsLower(st.b) && forall i :: 0 <= i < |st.fields| ==> IsLower(st.fields[i])
  }

  lemma {:induction false} FeedLower(s: string)
    requires IsLower(s)
    ensures LowerState(FeedAll(FRESH, s))
  {
    if s == "" {
    } else {
      FeedLower(s[..|s| - 1]);
    }
  }

  /** Fields are in lower case and without quotes. */
  lemma FieldsClean(query: string, i: nat)
    requires i < |Fields(query)|
    ensures IsLower(Fields(query)[i]) && QuoteFree(Fields(query)[i])
  {
    var lower := ToLower(query);
    assert IsLower(lower);
    FeedLower(lower);
    FeedDropsQuotes(lower);
    var st := FeedAll(FRESH, lower);
    assert i < |st.fields| ==> Fields(query)[i] == st.fields[i];
  }

  /** The first field, finished or not, starts with p. */
  predicate StartsWith(st: Splitter, p: string) {
    p != "" && if st.fields == [] then p <= st.b else p <= st.fields[0]
  }

  lemma {:induction false} StartKept(st: Splitter, s: string, p: string)
    requires StartsWith(st, p)
    ensures StartsWith(FeedAll(st, s), p)
  {
    if s == "" {
    } else {
      StartKept(st, s[..|s| - 1], p);
    }
  }

  lemma FirstFieldStarts(p: string, rest: string)
    requires p != "" && QuoteFree(p) && SpaceFree(p)
    ensures Fields(p + rest) != [] && ToLower(p) <= Fields(p + rest)[0]
  {
    ToLowerKeeps(p);
    LowerAppend(p, rest);
    FeedConcat(FRESH, ToLower(p), ToLower(rest));
    FeedText(FRESH, ToLower(p));
    assert "" + ToLower(p) == ToLower(p);
    StartKept(FRESH.(b := ToLower(p)), ToLower(rest), ToLower(p));
  }

  /** A printed query starts with a property field, and with the key and the
      operator when the key has no quotes and spaces. */
  lemma PrintedStarts(key: string, text: string)
    ensures var fields := Fields(PropertyQuery(key, text));
            fields != [] && "prop:" <= fields[0]
            && (QuoteFree(key) && SpaceFree(key) ==> "prop:" + ToLower(key) + "=" <= fields[0])
  {
    var rest := key + "=" + Quoted(text);
    assert PropertyQuery(key, text) == "prop:" + rest;
    assert ToLower("prop:") == "prop:";
    FirstFieldStarts("prop:", rest);
    if QuoteFree(key) && SpaceFree(key) {
      var p := "prop:" + key + "=";
      assert PropertyQuery(key, text) == p + Quoted(text);
      FirstFieldStarts(p, Quoted(text));
      LowerAppend("prop:" + key, "=");
      LowerAppend("prop:", key);
      assert ToLower("=") == "=";
    }
  }

  /** Where a key is read from a text that starts with it and =, the operator is
      =, and the key can stand before it. */
  lemma KeyWasCut(key: string, w: string, f: PropertyFilter)
    requires Parsed(key + "=" + w) == Some(f) && f.key == key
    ensures f == PropertyFilter(key, w, "=") && KeyCuts(key, "=")
  {
    var raw := key + "=" + w;
    ParsedExactly(raw, f);
    assert raw[|key|] == '=' && raw[|key|] == f.op[0];
    assert f.op == "=";
    assert f.value == raw[|key| + 1..] == w;
    ParseBack(key, "=", w);
  }

  predicate Solid(s: string) {
    s != "" && QuoteFree(s) && SpaceFree(s)
  }

  lemma NextField(st: Splitter, s: string)
    requires Solid(s) && st.b == "" && !st.inQuotes
    ensures FeedAll(st, s + [' ']) == Splitter(st.fields + [s], "", false)
    ensures Flush(FeedAll(st, s)).fields == st.fields + [s]
  {
    FeedText(st, s);
    assert "" + s == s;
    FeedField(st, s);
  }

  lemma FeedThree(a: string, b: string, c: string)
    ensures FeedAll(FRESH, a + b + c) == FeedAll(FeedAll(FeedAll(FRESH, a), b), c)
  {
    FeedConcat(FRESH, a + b, c);
    FeedConcat(FRESH, a, b);
  }

  lemma ThreeFields(a: string, b: string, c: string)
    requires Solid(a) && Solid(b) && Solid(c)
    ensures Flush(FeedAll(FRESH, a + [' '] + (b + [' ']) + c)).fields == [a] + [b] + [c]
  {
    var st1, st2 := FeedAll(FRESH, a + [' ']), FeedAll(FeedAll(FRESH, a + [' ']), b + [' ']);
    NextField(FRESH, a);
    assert st1.fields == [a];
    NextField(st1, b);
    assert st2.fields == [a, b];
    NextField(st2, c);
    FeedThree(a + [' '], b + [' '], c);
  }

  /** A printed filter can fall apart: the one for the key "a path: prop:" is three
      fields, and none of them is a property filter. */
  lemma StrayFields()
    ensures Fields(PropertyQuery("a path: prop:", "x")) == ["prop:" + "a"] + ["path:"] + ["prop:" + "=x"]
    ensures Parsed("a").None? && Parsed("=x").None?
  {
    StrayText();
    ThreeFields("prop:" + "a", "path:", "prop:" + "=x");
    ParsedIsCut("a");
    ParsedIsCut("=x");
    OneOperator("a");
    OneOperator("=x");
  }

  lemma StrayText()
    ensures ToLower(PropertyQuery("a path: prop:", "x"))
         == "prop:" + "a" + [' '] + ("path:" + [' ']) + ("prop:" + "=x")
  {
    var text := "prop:a path: prop:=x";
    assert PropertyQuery("a path: prop:", "x") == text;
    assert IsLower(text);
    LowerFixed(text);
  }

  lemma LowerFixed(s: string)
    requires IsLower(s)
    ensures ToLower(s) == s
  {
  }

  lemma StrayKey()
    ensures !KeyReads("a path: prop:", "=")
  {
    assert "a path: prop:"[1] == ' ';
  }

  /** Without an operator behind the first character there is no filter. */
  lemma OneOperator(raw: string)
    requires raw != "" && OpFree(raw[1..])
    ensures Uncut(raw)
  {
    forall op, i: nat | op in PROPERTY_OPS && i > 0 ensures !FirstAt(raw, op, i) {
      if i < |raw| {
        assert raw[i] == raw[1..][i - 1];
      }
    }
  }

  // --------------------------------------------------------------- last token

  /** Whether a quote is open after s, and one past the last blank outside
      quotes. */
  function InQuotes(s: string): bool {
    if s == "" then false
    else if s[|s| - 1] == QUOTE then !InQuotes(s[..|s| - 1])
    else InQuotes(s[..|s| - 1])
  }

  function TokenStart(s: string): (n: nat)
    ensures n <= |s|
  {
    if s == "" then 0
    else if s[|s| - 1] == ' ' && !InQuotes(s[..|s| - 1]) then |s|
    else TokenStart(s[..|s| - 1])
  }

  /** lastToken. */
  method LastToken(query: string) returns (head: string, token: string)
    ensures head == query[..TokenStart(query)] && token == query[TokenStart(query)..]
    ensures head + token == query
  {
    var at := -1;
    var inQuotes := false;
    assert query[..0] == "";
    for i := 0 to |query|
      invariant inQuotes == InQuotes(query[..i])
      invariant -1 <= at < i || at == -1
      invariant at + 1 == TokenStart(query[..i])
    {
      assert query[..i + 1][..i] == query[..i];
      if query[i] == QUOTE {
        inQuotes := !inQuotes;
      } else if query[i] == ' ' && !inQuotes {
        at := i;
      }
    }
    assert query[..|query|] == query;
    return query[..at + 1], query[at + 1..];
  }

  lemma {:induction false} QuotesAgree(s: string)
    ensures FeedAll(FRESH, ToLower(s)).inQuotes == InQuotes(s)
  {
    if s == "" {
    } else {
      QuotesAgree(s[..|s| - 1]);
      assert ToLower(s)[..|s| - 1] == ToLower(s[..|s| - 1]);
    }
  }

  /** The token starts behind a blank outside quotes, or where the text does, and
      has no such blank in it. */
  lemma {:induction false} TokenStartShape(s: string)
    ensures var n := TokenStart(s);
            && (n == 0 || (s[n - 1] == ' ' && !InQuotes(s[..n - 1])))
            && forall i :: n <= i < |s| && s[i] == ' ' ==> InQuotes(s[..i])
  {
    if s != "" && !(s[|s| - 1] == ' ' && !InQuotes(s[..|s| - 1])) {
      var init := s[..|s| - 1];
      TokenStartShape(init);
      var n := TokenStart(init);
      assert forall i :: 0 <= i < |init| ==> init[..i] == s[..i] && init[i] == s[i];
    }
  }

  /** The dialog's head ends between fields. */
  lemma HeadEndsField(query: string)
    ensures var st := FeedAll(FRESH, ToLower(query[..TokenStart(query)]));
            st.b == "" && !st.inQuotes && st.fields == Fields(query[..TokenStart(query)])
  {
    var n := TokenStart(query);
    var head := query[..n];
    TokenStartShape(query);
    if n > 0 {
      var init := query[..n - 1];
      QuotesAgree(init);
      assert ToLower(head) == ToLower(init) + [' '];
      FeedField(FRESH, ToLower(init));
    }
  }

  /** A blank outside quotes ends the field. */
  lemma FeedField(st: Splitter, text: string)
    requires !FeedAll(st, text).inQuotes
    ensures FeedAll(st, text + [' ']) == Flush(FeedAll(st, text))
  {
    assert (text + [' '])[..|text|] == text;
    FeedBlank(FeedAll(st, text));
  }

  lemma FeedBlank(r: Splitter)
    requires !r.inQuotes
    ensures Feed(r, ' ') == Flush(r)
  {
  }

  lemma LowerCompleted(head: string, text: string)
    ensures ToLower(head + text + " ") == ToLower(head) + (ToLower(text) + [' '])
  {
  }

  /** Taking a suggestion replaces only the token being typed: the query then
      splits into the fields of the head as before, and the suggested filter. */
  lemma CompletionKeepsTheRest(query: string, key: string, op: string, value: string)
    requires QuoteFree(key) && SpaceFree(key) && op in PROPERTY_OPS && QuoteFree(value)
    ensures var head := query[..TokenStart(query)];
            Fields(head + Suggestion(key, op, value) + " ") == Fields(head) + [ToLower("prop:" + key + op + value)]
  {
    var head, pre := query[..TokenStart(query)], "prop:" + key + op;
    var text := Suggestion(key, op, value);
    var st := FeedAll(FRESH, ToLower(head));
    LowerOps(op);
    HeadEndsField(query);
    FeedPrinted(st, pre, value);
    FeedField(st, ToLower(text));
    LowerCompleted(head, text);
    FeedConcat(FRESH, ToLower(head), ToLower(text) + [' ']);
  }

  // ----------------------------------------------------------------- what splits

  lemma {:induction false} FeedBehind(fields: seq<string>, st: Splitter, s: string)
    ensures var r := FeedAll(st, s);
            FeedAll(Splitter(fields + st.fields, st.b, st.inQuotes), s)
            == Splitter(fields + r.fields, r.b, r.inQuotes)
  {
    if s == "" {
    } else {
      FeedBehind(fields, st, s[..|s| - 1]);
      var r := FeedAll(st, s[..|s| - 1]);
      assert fields + r.fields + [r.b] == fields + (r.fields + [r.b]);
    }
  }

  /** White space outside quotes splits whatever stands on either side of it. */
  lemma SpaceSplits(a: string, c: char, b: string)
    requires IsSpace(c) && !InQuotes(a)
    ensures Fields(a + [c] + b) == Fields(a) + Fields(b)
  {
    QuotesAgree(a);
    var st, more := FeedAll(FRESH, ToLower(a)), FeedAll(FRESH, ToLower(b));
    assert ToLower([c]) == [c];
    LowerAppend(a + [c], b);
    LowerAppend(a, [c]);
    FeedConcat(FRESH, ToLower(a) + [c], ToLower(b));
    FeedConcat(FRESH, ToLower(a), [c]);
    FeedOne(st, c);
    BehindFlush(st, ToLower(b));
  }

  lemma BehindFlush(st: Splitter, s: string)
    requires !st.inQuotes
    ensures Flush(FeedAll(Flush(st), s)).fields == Flush(st).fields + Flush(FeedAll(FRESH, s)).fields
  {
    FeedBehind(Flush(st).fields, FRESH, s);
    assert Flush(st) == Splitter(Flush(st).fields + FRESH.fields, FRESH.b, FRESH.inQuotes);
    var r := FeedAll(FRESH, s);
    assert Flush(st).fields + r.fields + [r.b] == Flush(st).fields + (r.fields + [r.b]);
  }

  /** Text without white space is one field, and so is text in quotes. */
  lemma OneFieldOf(text: string)
    requires text != "" && QuoteFree(text)
    ensures Fields([QUOTE] + text + [QUOTE]) == [ToLower(text)]
    ensures SpaceFree(text) ==> Fields(text) == [ToLower(text)]
  {
    var lower := ToLower(text);
    ToLowerKeeps(text);
    LowerQuoted(text);
    FeedQuoted(FRESH, lower);
    assert "" + lower == lower;
    LastFlush(lower);
    if SpaceFree(text) {
      FeedText(FRESH, lower);
    }
  }

  lemma LowerQuoted(text: string)
    ensures ToLower([QUOTE] + text + [QUOTE]) == [QUOTE] + ToLower(text) + [QUOTE]
  {
  }

  lemma LastFlush(text: string)
    requires text != ""
    ensures Flush(FRESH.(b := text)).fields == [text]
  {
  }
}
