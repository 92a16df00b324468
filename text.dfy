/**
 * The JavaScript string operations the converter's input handling uses:
 * `split` on one character, `join('')`, `replace` of a character (first or all
 * occurrences), removal of the characters outside `[0-9.,]`, `substring(0, n)`
 * and the relational operators `<`, `>=`, `<=` on strings.
 */
module Text {

  predicate IsDigit(c: char) { '0' <= c <= '9' }

  /** A character of the class `[0-9.,]` that the input fields keep. */
  predicate IsNumericChar(c: char) { IsDigit(c) || c == '.' || c == ',' }

  /** Number of occurrences of `c` in `s`. */
  function Count(s: string, c: char): (n: nat)
    ensures n == 0 <==> c !in s
    ensures n <= |s|
  {
    if s == [] then 0
    else
      assert c in s <==> s[0] == c || c in s[1..];
      (if s[0] == c then 1 else 0) + Count(s[1..], c)
  }

  lemma {:induction false} CountAppend(a: string, b: string, c: char)
    ensures Count(a + b, c) == Count(a, c) + Count(b, c)
  {
    if a == [] {
      assert a + b == b;
    } else {
      assert (a + b)[1..] == a[1..] + b;
      CountAppend(a[1..], b, c);
    }
  }

  /** Counting around position `k`: before it, at it, after it. */
  lemma CountAt(s: string, k: nat, c: char)
    requires k < |s|
    ensures Count(s, c) == Count(s[..k], c) + Count([s[k]], c) + Count(s[k + 1..], c)
  {
    var head, tail := s[..k], s[k + 1..];
    assert s == head + ([s[k]] + tail);
    CountAppend(head, [s[k]] + tail, c);
    CountAppend([s[k]], tail, c);
  }

  /** A text is what comes before position `k`, the character at `k`, and what follows. */
  lemma AroundIndex(s: string, k: nat)
    requires k < |s|
    ensures s == s[..k] + [s[k]] + s[k + 1..]
  {
  }

  /** `head + [c] + tail` with no other `c`: one `c`, found right after `head`. */
  lemma JoinedOnce(head: string, c: char, tail: string)
    requires c !in head && c !in tail
    ensures Count(head + [c] + tail, c) == 1
    ensures c in head + [c] + tail && IndexOf(head + [c] + tail, c) == |head|
    ensures (head + [c] + tail)[..|head|] == head && (head + [c] + tail)[|head| + 1..] == tail
  {
    var r := head + [c] + tail;
    CountAppend(head + [c], tail, c);
    CountAppend(head, [c], c);
    assert r[|head|] == c;
    assert r[..|head|] == head;
    assert forall i :: 0 <= i < |head| ==> r[i] == head[i] && head[i] in head;
  }

  /** `s.indexOf(c)` when `c` occurs in `s`: the position of its first occurrence. */
  function IndexOf(s: string, c: char): (k: nat)
    requires c in s
    ensures k < |s| && s[k] == c && c !in s[..k]
  {
    if s[0] == c then 0
    else
      assert c in s[1..] by { assert s == [s[0]] + s[1..]; }
      var k := IndexOf(s[1..], c);
      assert s[..k + 1] == [s[0]] + s[1..][..k];
      k + 1
  }

  /** `parts.join(sep)` for a one-character separator. */
  function Join(parts: seq<string>, sep: char): string
  {
    if parts == [] then ""
    else if |parts| == 1 then parts[0]
    else parts[0] + [sep] + Join(parts[1..], sep)
  }

  /**
   * `s.split(sep)` for a one-character separator: the pieces between consecutive
   * separators (`JoinSplit` shows that joining them with `sep` gives `s` back).
   */
  function Split(s: string, sep: char): (parts: seq<string>)
    ensures |parts| == Count(s, sep) + 1
    ensures forall i :: 0 <= i < |parts| ==> sep !in parts[i]
    decreases |s|
  {
    if sep !in s then [s]
    else
      var k := IndexOf(s, sep);
      assert s == s[..k] + [sep] + s[k + 1..];
      CountAppend(s[..k] + [sep], s[k + 1..], sep);
      CountAppend(s[..k], [sep], sep);
      var rest := Split(s[k + 1..], sep);
      [s[..k]] + rest
  }

  /** Joining the pieces of a split with the separator gives the text back. */
  lemma {:induction false} JoinSplit(s: string, sep: char)
    ensures Join(Split(s, sep), sep) == s
    decreases |s|
  {
    if sep in s {
      var k := IndexOf(s, sep);
      var parts := Split(s, sep);
      SplitFirst(s, sep);
      JoinSplit(s[k + 1..], sep);
      assert parts == [parts[0]] + parts[1..];
      AroundIndex(s, k);
    }
  }

  /** `parts.join('')`: a character occurs in the result iff it occurs in some piece. */
  function Concat(parts: seq<string>): (r: string)
    ensures forall c :: c in r <==> exists i :: 0 <= i < |parts| && c in parts[i]
  {
    if parts == [] then ""
    else
      var rest := Concat(parts[1..]);
      assert forall i :: 1 <= i < |parts| ==> parts[i] == parts[1..][i - 1];
      parts[0] + rest
  }

  /** `s` with every occurrence of `c` deleted. */
  function RemoveAll(s: string, c: char): (r: string)
    ensures c !in r
  {
    if s == [] then "" else (if s[0] == c then "" else [s[0]]) + RemoveAll(s[1..], c)
  }

  /** Deleting a character keeps only characters of `s`. */
  lemma {:induction false} RemoveAllWithin(s: string, c: char)
    ensures forall x :: x in RemoveAll(s, c) ==> x in s
  {
    if s != [] {
      RemoveAllWithin(s[1..], c);
      assert forall x :: x in s[1..] ==> x in s;
    }
  }

  lemma {:induction false} RemoveAllAppend(a: string, b: string, c: char)
    ensures RemoveAll(a + b, c) == RemoveAll(a, c) + RemoveAll(b, c)
  {
    if a == [] {
      assert a + b == b;
    } else {
      var head := if a[0] == c then "" else [a[0]];
      assert (a + b)[0] == a[0] && (a + b)[1..] == a[1..] + b;
      calc {
        RemoveAll(a + b, c);
        head + RemoveAll(a[1..] + b, c);
        { RemoveAllAppend(a[1..], b, c); }
        head + (RemoveAll(a[1..], c) + RemoveAll(b, c));
        (head + RemoveAll(a[1..], c)) + RemoveAll(b, c);
      }
    }
  }

  lemma {:induction false} RemoveAllAbsent(s: string, c: char)
    requires c !in s
    ensures RemoveAll(s, c) == s
  {
    if s != [] {
      assert c !in s[1..] by { assert forall x :: x in s[1..] ==> x in s; }
      RemoveAllAbsent(s[1..], c);
      assert s == [s[0]] + s[1..];
    }
  }

  /** Splitting at the first separator: the first piece, then the split of what follows it. */
  lemma SplitFirst(s: string, sep: char)
    requires sep in s
    ensures Split(s, sep)[0] == s[..IndexOf(s, sep)]
    ensures Split(s, sep)[1..] == Split(s[IndexOf(s, sep) + 1..], sep)
  {
    var k := IndexOf(s, sep);
    var parts := [s[..k]] + Split(s[k + 1..], sep);
    assert Split(s, sep) == parts;
    assert parts[1..] == Split(s[k + 1..], sep);
  }

  /** Without a separator the split is the whole text. */
  lemma SplitNone(s: string, sep: char)
    requires sep !in s
    ensures Split(s, sep) == [s]
  {
  }

  /** The pieces after the first concatenate to what follows the first separator, its separators deleted. */
  lemma SplitRest(s: string, sep: char)
    requires sep in s
    ensures Concat(Split(s, sep)[1..]) == RemoveAll(s[IndexOf(s, sep) + 1..], sep)
  {
    var k := IndexOf(s, sep);
    calc {
      Concat(Split(s, sep)[1..]);
      { SplitFirst(s, sep); }
      Concat(Split(s[k + 1..], sep));
      { ConcatSplit(s[k + 1..], sep); }
      RemoveAll(s[k + 1..], sep);
    }
  }

  lemma RemoveAllFirst(s: string, c: char)
    requires c in s
    ensures RemoveAll(s, c) == s[..IndexOf(s, c)] + RemoveAll(s[IndexOf(s, c) + 1..], c)
  {
    var k := IndexOf(s, c);
    var head, tail := s[..k], s[k + 1..];
    assert s == head + ([c] + tail);
    RemoveAllAppend(head, [c] + tail, c);
    RemoveAllAbsent(head, c);
    RemoveAllDropsHead(c, tail);
  }

  lemma RemoveAllDropsHead(c: char, tail: string)
    ensures RemoveAll([c] + tail, c) == RemoveAll(tail, c)
  {
    assert ([c] + tail)[1..] == tail;
  }

  /** Joining the pieces of a split without separators deletes the separator. */
  lemma {:induction false} ConcatSplit(s: string, sep: char)
    ensures Concat(Split(s, sep)) == RemoveAll(s, sep)
    decreases |s|
  {
    if sep !in s {
      RemoveAllAbsent(s, sep);
      assert Concat([s]) == s + Concat([]);
    } else {
      var k := IndexOf(s, sep);
      var rest := Split(s[k + 1..], sep);
      calc {
        Concat(Split(s, sep));
        Concat([s[..k]] + rest);
        { assert ([s[..k]] + rest)[1..] == rest; }
        s[..k] + Concat(rest);
        { ConcatSplit(s[k + 1..], sep); }
        s[..k] + RemoveAll(s[k + 1..], sep);
        { RemoveAllFirst(s, sep); }
        RemoveAll(s, sep);
      }
    }
  }

  /** `s.substring(0, n)`: the first `n` characters, or all of `s` when it is shorter. */
  function Take(s: string, n: nat): (r: string)
    ensures r <= s
    ensures |r| == if |s| <= n then |s| else n
  {
    if |s| <= n then s else s[..n]
  }

  /** `s.replace(/[^0-9.,]/g, '')`: the characters of `s` in `[0-9.,]`, in order. */
  function KeepNumeric(s: string): (r: string)
    ensures |r| <= |s|
    ensures forall x :: x in r ==> IsNumericChar(x)
    ensures (forall i :: 0 <= i < |s| ==> IsNumericChar(s[i])) ==> r == s
  {
    if s == [] then ""
    else
      var rest := KeepNumeric(s[1..]);
      assert forall x :: x in s[1..] ==> x in s;
      if IsNumericChar(s[0]) then
        assert ([s[0]] + rest)[1..] == rest;
        [s[0]] + rest
      else rest
  }

  /** Filtering keeps every character of `[0-9.,]` as often as it occurs in `s`. */
  lemma {:induction false} KeepNumericCounts(s: string, c: char)
    requires IsNumericChar(c)
    ensures Count(KeepNumeric(s), c) == Count(s, c)
  {
    if s != [] {
      KeepNumericCounts(s[1..], c);
      if IsNumericChar(s[0]) {
        assert ([s[0]] + KeepNumeric(s[1..]))[1..] == KeepNumeric(s[1..]);
      }
    }
  }

  /** Filtering one character keeps it iff it is in `[0-9.,]`. */
  lemma KeepNumericSingle(c: char)
    ensures KeepNumeric([c]) == if IsNumericChar(c) then [c] else ""
  {
    assert [c][1..] == "";
  }

  /** Filtering keeps the order: filtering a concatenation concatenates the filtered parts. */
  lemma {:induction false} KeepNumericAppend(a: string, b: string)
    ensures KeepNumeric(a + b) == KeepNumeric(a) + KeepNumeric(b)
  {
    if a == [] {
      assert a + b == b;
    } else {
      var ab := a + b;
      assert ab[0] == a[0] && ab[1..] == a[1..] + b;
      KeepNumericAppend(a[1..], b);
    }
  }

  /** `s.replace(/a/g, b)`: every `a` becomes `b`. */
  function ReplaceAll(s: string, a: char, b: char): (r: string)
    ensures |r| == |s|
    ensures forall i :: 0 <= i < |s| ==> r[i] == if s[i] == a then b else s[i]
    ensures a !in s ==> r == s
  {
    if s == [] then "" else [if s[0] == a then b else s[0]] + ReplaceAll(s[1..], a, b)
  }

  /** `s.replace(a, b)` with a string pattern: only the first `a` becomes `b`. */
  function ReplaceFirst(s: string, a: char, b: char): (r: string)
    ensures |r| == |s|
    ensures a !in s ==> r == s
    ensures a in s ==> r == s[..IndexOf(s, a)] + [b] + s[IndexOf(s, a) + 1..]
  {
    if a in s then
      var k := IndexOf(s, a);
      s[..k] + [b] + s[k + 1..]
    else s
  }

  /**
   * `a < b` on JavaScript strings: lexicographic order on code units, a proper
   * prefix before its extensions.
   */
  function LexLess(a: string, b: string): (r: bool)
    ensures r ==> b != []
    ensures a != [] && b != [] && a[0] < b[0] ==> r
    ensures a != [] && b != [] && a[0] > b[0] ==> !r
  {
    if b == [] then false
    else if a == [] then true
    else if a[0] != b[0] then a[0] < b[0]
    else LexLess(a[1..], b[1..])
  }
}
