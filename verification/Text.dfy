/** The parts of Go's strings, bytes and path packages the program leans on,
    over ASCII text: a char stands for one byte. */
module Text {

  const NL: char := '\n'

  /** unicode.IsSpace on ASCII. */
  predicate IsSpace(c: char) {
    c == ' ' || c == '\t' || c == '\n' || c == '\r' || c == '\U{0B}' || c == '\U{0C}'
  }

  function LowerChar(c: char): char {
    if 'A' <= c <= 'Z' then (c as int + 32) as char else c
  }

  function ToLower(s: string): (r: string)
    ensures |r| == |s|
    ensures forall i :: 0 <= i < |s| ==> r[i] == LowerChar(s[i])
  {
    seq(|s|, i requires 0 <= i < |s| => LowerChar(s[i]))
  }

  predicate HasSuffix(s: string, t: string) {
    |t| <= |s| && s[|s| - |t|..] == t
  }

  function TrimPrefix(s: string, p: string): string {
    if p <= s then s[|p|..] else s
  }

  function TrimSuffix(s: string, t: string): string {
    if HasSuffix(s, t) then s[..|s| - |t|] else s
  }

  function TrimLeft(s: string): string {
    if s != "" && IsSpace(s[0]) then TrimLeft(s[1..]) else s
  }

  function TrimRight(s: string): string {
    if s != "" && IsSpace(s[|s| - 1]) then TrimRight(s[..|s| - 1]) else s
  }

  function TrimSpace(s: string): string {
    TrimRight(TrimLeft(s))
  }

  /** The position of the first c, or -1. */
  function IndexOf(s: string, c: char): (i: int)
    ensures -1 <= i < |s|
    ensures i >= 0 ==> s[i] == c
  {
    if s == "" then -1
    else if s[0] == c then 0
    else
      var j := IndexOf(s[1..], c);
      if j < 0 then -1 else j + 1
  }

  lemma {:induction false} IndexOfFirst(s: string, c: char)
    ensures IndexOf(s, c) == -1 <==> c !in s
    ensures forall k :: 0 <= k < IndexOf(s, c) ==> s[k] != c
  {
    if s != "" && s[0] != c {
      IndexOfFirst(s[1..], c);
      var j := IndexOf(s[1..], c);
      assert s == [s[0]] + s[1..];
      forall k | 0 <= k < IndexOf(s, c) ensures s[k] != c {
        if k > 0 { assert s[k] == s[1..][k - 1]; }
      }
    }
  }

  /** strings.Contains. */
  predicate Contains(s: string, t: string) {
    t <= s || (s != "" && Contains(s[1..], t))
  }

  /** strings.Split on a single character: always at least one field. */
  function Split(s: string, c: char): (fields: seq<string>)
    ensures |fields| >= 1
  {
    var i := IndexOf(s, c);
    if i < 0 then [s] else [s[..i]] + Split(s[i + 1..], c)
  }

  /** strings.Join with a single character. */
  function Join(fields: seq<string>, c: char): string {
    if fields == [] then ""
    else if |fields| == 1 then fields[0]
    else fields[0] + [c] + Join(fields[1..], c)
  }

  lemma {:induction false} SplitFree(s: string, c: char)
    ensures forall k :: 0 <= k < |Split(s, c)| ==> c !in Split(s, c)[k]
  {
    var i := IndexOf(s, c);
    IndexOfFirst(s, c);
    if i >= 0 {
      SplitFree(s[i + 1..], c);
      assert c !in s[..i];
    }
  }

  lemma JoinCons(f: string, rest: seq<string>, c: char)
    requires rest != []
    ensures Join([f] + rest, c) == f + [c] + Join(rest, c)
  {
    assert ([f] + rest)[1..] == rest;
  }

  lemma {:induction false} JoinSplit(s: string, c: char)
    ensures Join(Split(s, c), c) == s
  {
    var i := IndexOf(s, c);
    if i >= 0 {
      var rest := Split(s[i + 1..], c);
      JoinSplit(s[i + 1..], c);
      JoinCons(s[..i], rest, c);
      assert s == s[..i] + [c] + s[i + 1..];
    }
  }

  lemma IndexOfAfter(a: string, c: char, b: string)
    requires c !in a
    ensures IndexOf(a + [c] + b, c) == |a|
  {
    var s := a + [c] + b;
    IndexOfFirst(s, c);
    assert s[|a|] == c;
    assert forall k :: 0 <= k < |a| ==> s[k] == a[k] && s[k] != c;
  }

  lemma {:induction false} SplitCons(a: string, c: char, b: string)
    requires c !in a
    ensures Split(a + [c] + b, c) == [a] + Split(b, c)
  {
    IndexOfAfter(a, c, b);
    assert (a + [c] + b)[..|a|] == a;
    assert (a + [c] + b)[|a| + 1..] == b;
  }

  /** A separator splits whatever stands on either side of it. */
  lemma {:induction false} SplitAppend(a: string, c: char, b: string)
    ensures Split(a + [c] + b, c) == Split(a, c) + Split(b, c)
  {
    var i := IndexOf(a, c);
    IndexOfFirst(a, c);
    if i < 0 {
      SplitCons(a, c, b);
    } else {
      SplitAppend(a[i + 1..], c, b);
      SplitPast(a[..i], c, a[i + 1..], b);
      assert a == a[..i] + [c] + a[i + 1..];
    }
  }

  lemma SplitPast(head: string, c: char, tail: string, b: string)
    requires c !in head
    ensures Split(head + [c] + tail + [c] + b, c) == [head] + Split(tail + [c] + b, c)
  {
    SplitCons(head, c, tail + [c] + b);
    assert head + [c] + tail + [c] + b == head + [c] + (tail + [c] + b);
  }

  lemma {:induction false} SplitJoin(fields: seq<string>, c: char)
    requires |fields| >= 1
    requires forall k :: 0 <= k < |fields| ==> c !in fields[k]
    ensures Split(Join(fields, c), c) == fields
  {
    if |fields| > 1 {
      SplitJoin(fields[1..], c);
      SplitCons(fields[0], c, Join(fields[1..], c));
    }
  }

  /** Text up to the first colon is determined. */
  lemma PrefixToColon(a: string, b: string, rest: string)
    requires ':' !in a && ':' !in b
    ensures a + ":" <= b + ":" + rest <==> a == b
  {
    var x, y := a + ":", b + ":" + rest;
    assert x[|a|] == ':' && y[|b|] == ':';
    assert forall i :: 0 <= i < |a| ==> x[i] == a[i];
    assert forall i :: 0 <= i < |b| ==> y[i] == b[i];
    if |a| < |b| {
      assert x[|a|] != y[|a|];
    } else if |b| < |a| {
      assert x[|b|] != y[|b|];
    } else if x <= y {
      assert forall i :: 0 <= i < |a| ==> a[i] == x[i] && x[i] == y[i] && y[i] == b[i];
    }
  }

  // Trimming

  lemma {:induction false} TrimRightFixed(s: string)
    requires s == "" || !IsSpace(s[|s| - 1])
    ensures TrimRight(s) == s
  {
  }

  lemma {:induction false} TrimRightShape(s: string)
    ensures TrimRight(s) <= s
    ensures TrimRight(s) == "" || !IsSpace(TrimRight(s)[|TrimRight(s)| - 1])
  {
    if s != "" && IsSpace(s[|s| - 1]) {
      TrimRightShape(s[..|s| - 1]);
    }
  }

  lemma {:induction false} TrimLeftHead(s: string)
    ensures TrimLeft(s) == "" || !IsSpace(TrimLeft(s)[0])
    ensures HasSuffix(s, TrimLeft(s))
  {
    if s != "" && IsSpace(s[0]) {
      TrimLeftHead(s[1..]);
    }
  }

  /** Trimmed text never begins with white space. */
  lemma TrimSpaceHead(s: string)
    ensures TrimSpace(s) == "" || !IsSpace(TrimSpace(s)[0])
  {
    TrimLeftHead(s);
    TrimRightShape(TrimLeft(s));
  }

  /** The last character of text that ends in a visible one survives trimming. */
  lemma TrimSpaceLast(s: string)
    requires s != "" && !IsSpace(s[|s| - 1])
    ensures TrimSpace(s) != "" && TrimSpace(s)[|TrimSpace(s)| - 1] == s[|s| - 1]
  {
    TrimLeftLast(s);
  }

  lemma {:induction false} TrimLeftLast(s: string)
    requires s != "" && !IsSpace(s[|s| - 1])
    ensures TrimLeft(s) != "" && TrimLeft(s)[|TrimLeft(s)| - 1] == s[|s| - 1]
  {
    if IsSpace(s[0]) {
      TrimLeftLast(s[1..]);
    }
  }

  // Lexicographic byte order (Go's < on strings)

  predicate Less(a: string, b: string) {
    b != "" && (a == "" || a[0] < b[0] || (a[0] == b[0] && Less(a[1..], b[1..])))
  }

  lemma {:induction false} LessTotal(a: string, b: string)
    ensures Less(a, b) || a == b || Less(b, a)
    ensures !(Less(a, b) && Less(b, a))
    ensures !Less(a, a)
  {
    if a != "" && b != "" && a[0] == b[0] {
      LessTotal(a[1..], b[1..]);
      assert a == [a[0]] + a[1..] && b == [b[0]] + b[1..];
    }
    if a != "" {
      LessTotal(a[1..], a[1..]);
    }
  }

  lemma {:induction false} LessTransitive(a: string, b: string, c: string)
    requires Less(a, b) && Less(b, c)
    ensures Less(a, c)
  {
    if a != "" && a[0] == b[0] == c[0] {
      LessTransitive(a[1..], b[1..], c[1..]);
    }
  }

  /** a's first difference from b decides, or a ends there and b does not. */
  predicate FirstLess(a: string, b: string, k: nat) {
    && k <= |a| && k < |b| && a[..k] == b[..k]
    && (k == |a| || a[k] < b[k])
  }

  lemma {:induction false} LessExactly(a: string, b: string)
    ensures Less(a, b) <==> exists k: nat :: FirstLess(a, b, k)
  {
    if b != "" {
      if a == "" || a[0] < b[0] {
        assert FirstLess(a, b, 0);
      } else if a[0] == b[0] {
        LessExactly(a[1..], b[1..]);
        assert a == [a[0]] + a[1..] && b == [b[0]] + b[1..];
        if k: nat :| FirstLess(a[1..], b[1..], k) {
          assert a[..k + 1] == [a[0]] + a[1..][..k] && b[..k + 1] == [b[0]] + b[1..][..k];
          assert FirstLess(a, b, k + 1);
        }
        if k: nat :| FirstLess(a, b, k) {
          assert a[1..][..k - 1] == a[..k][1..] && b[1..][..k - 1] == b[..k][1..];
          assert FirstLess(a[1..], b[1..], k - 1);
        }
      } else {
        assert forall k :: k > 0 && k <= |a| && k < |b| ==> a[..k][0] != b[..k][0];
      }
    }
  }

  // What the other helpers mean

  predicate OccursAt(s: string, t: string, i: nat) {
    i + |t| <= |s| && s[i..i + |t|] == t
  }

  lemma {:induction false} ContainsExactly(s: string, t: string)
    ensures Contains(s, t) <==> exists i: nat :: OccursAt(s, t, i)
  {
    if t <= s {
      assert OccursAt(s, t, 0);
    } else if s != "" {
      ContainsExactly(s[1..], t);
      if i: nat :| OccursAt(s[1..], t, i) {
        assert OccursAt(s, t, i + 1);
      }
      if i: nat :| OccursAt(s, t, i) {
        assert !OccursAt(s, t, 0);
        assert s[1..][i - 1..i - 1 + |t|] == s[i..i + |t|];
        assert OccursAt(s[1..], t, i - 1);
      }
    }
  }

  predicate Capital(c: char) {
    'A' <= c <= 'Z'
  }

  /** The same character, or the same letter in the other case. */
  predicate SameLetter(c: char, d: char) {
    || c == d
    || (Capital(c) && d as int == c as int + 32)
    || (Capital(d) && c as int == d as int + 32)
  }

  /** The same text but for the case of letters. */
  predicate SameText(s: string, t: string) {
    |s| == |t| && forall i :: 0 <= i < |s| ==> SameLetter(s[i], t[i])
  }

  /** ToLower changes nothing but the case of letters, leaves no capital, and so
      makes two texts equal exactly if they differ in case alone. */
  lemma LowerExactly(s: string, t: string)
    ensures SameText(ToLower(s), s) && forall i :: 0 <= i < |s| ==> !Capital(ToLower(s)[i])
    ensures ToLower(s) == ToLower(t) <==> SameText(s, t)
  {
    if SameText(s, t) {
      assert forall i :: 0 <= i < |s| ==> ToLower(s)[i] == LowerChar(s[i]) == LowerChar(t[i]) == ToLower(t)[i];
    }
    if ToLower(s) == ToLower(t) {
      assert |s| == |ToLower(s)| == |ToLower(t)| == |t|;
      forall i | 0 <= i < |s| ensures SameLetter(s[i], t[i]) {
        assert ToLower(s)[i] == LowerChar(s[i]) && ToLower(t)[i] == LowerChar(t[i]);
      }
    }
  }

  lemma LowerAppend(a: string, b: string)
    ensures ToLower(a + b) == ToLower(a) + ToLower(b)
  {
  }

  predicate Blank(s: string) {
    forall i :: 0 <= i < |s| ==> IsSpace(s[i])
  }

  /** The outer white space is what TrimSpace takes away, and all of it. */
  lemma TrimSpaceExactly(s: string) returns (before: string, after: string)
    ensures s == before + TrimSpace(s) + after && Blank(before) && Blank(after)
    ensures TrimSpace(s) != "" ==> !IsSpace(TrimSpace(s)[0]) && !IsSpace(TrimSpace(s)[|TrimSpace(s)| - 1])
  {
    before := TrimLeftExactly(s);
    after := TrimRightExactly(TrimLeft(s));
    TrimSpaceHead(s);
    TrimRightShape(TrimLeft(s));
  }

  lemma {:induction false} TrimLeftExactly(s: string) returns (before: string)
    ensures s == before + TrimLeft(s) && Blank(before)
  {
    before := "";
    if s != "" && IsSpace(s[0]) {
      var more := TrimLeftExactly(s[1..]);
      before := [s[0]] + more;
    }
  }

  lemma {:induction false} TrimRightExactly(s: string) returns (after: string)
    ensures s == TrimRight(s) + after && Blank(after)
  {
    after := "";
    if s != "" && IsSpace(s[|s| - 1]) {
      var more := TrimRightExactly(s[..|s| - 1]);
      after := more + [s[|s| - 1]];
    }
  }
}
