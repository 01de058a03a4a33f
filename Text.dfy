/** The JavaScript string operations the tracker relies on, on `seq<char>`:
    `split` and `join` on one separator character, `includes`,
    `toLowerCase`, `trim() === ''`, `replace(/[$₹]/g, "")` and the `<`
    comparison of two strings. */
module Text {

  /** `s.split(sep)` for a one-character separator: the pieces between the
      separators, always at least one ("" splits to [""]). */
  function Split(s: string, sep: char): (r: seq<string>)
    ensures |r| >= 1
  {
    if s == [] then [""]
    else
      var rest := Split(s[1..], sep);
      if s[0] == sep then [""] + rest
      else [[s[0]] + rest[0]] + rest[1..]
  }

  /** `parts.join(sep)`: the parts with one separator between neighbours. */
  function Join(parts: seq<string>, sep: string): string
  {
    if |parts| == 0 then ""
    else if |parts| == 1 then parts[0]
    else parts[0] + sep + Join(parts[1..], sep)
  }

  /** Number of occurrences of `c` in `s`. */
  function Count(s: string, c: char): nat
  {
    if s == [] then 0 else (if s[0] == c then 1 else 0) + Count(s[1..], c)
  }

  predicate Free(s: string, c: char)
  {
    forall i :: 0 <= i < |s| ==> s[i] != c
  }

  /** Splitting yields one piece more than there are separators. */
  lemma {:induction false} SplitCount(s: string, sep: char)
    ensures |Split(s, sep)| == Count(s, sep) + 1
  {
    if s != [] {
      SplitCount(s[1..], sep);
    }
  }

  lemma {:induction false} CountAppend(a: string, b: string, c: char)
    ensures Count(a + b, c) == Count(a, c) + Count(b, c)
  {
    if a == [] {
      assert a + b == b;
    } else {
      assert (a + b)[1..] == a[1..] + b;
      CountAppend(a[1..], b, c);
    }
  }

  lemma {:induction false} CountPositive(s: string, c: char)
    requires !Free(s, c)
    ensures Count(s, c) >= 1
  {
    if s[0] != c {
      CountPositive(s[1..], c);
    }
  }

  /** A separator-free prefix glues onto the first piece of the rest. */
  lemma {:induction false} SplitFreePrefix(p: string, tail: string, sep: char)
    requires Free(p, sep)
    ensures Split(p + tail, sep) == [p + Split(tail, sep)[0]] + Split(tail, sep)[1..]
  {
    if p == [] {
      assert p + tail == tail;
      var r := Split(tail, sep);
      assert p + r[0] == r[0];
      assert r == [r[0]] + r[1..];
    } else {
      assert (p + tail)[1..] == p[1..] + tail;
      SplitFreePrefix(p[1..], tail, sep);
      assert [p[0]] + (p[1..] + Split(tail, sep)[0]) == p + Split(tail, sep)[0];
    }
  }

  /** A separator-free piece followed by a separator splits off as one piece. */
  lemma SplitFreePiece(p: string, tail: string, sep: char)
    requires Free(p, sep)
    ensures Split(p + [sep] + tail, sep) == [p] + Split(tail, sep)
  {
    assert p + [sep] + tail == p + ([sep] + tail);
    SplitFreePrefix(p, [sep] + tail, sep);
    assert ([sep] + tail)[1..] == tail;
    assert p + "" == p;
  }

  /** A separator-free string splits to itself alone. */
  lemma SplitFree(p: string, sep: char)
    requires Free(p, sep)
    ensures Split(p, sep) == [p]
  {
    SplitFreePrefix(p, "", sep);
    assert p + "" == p;
  }

  /** Round trip: splitting the join of separator-free parts gives the parts
      back. */
  lemma {:induction false} SplitJoin(parts: seq<string>, sep: char)
    requires |parts| >= 1
    requires forall i :: 0 <= i < |parts| ==> Free(parts[i], sep)
    ensures Split(Join(parts, [sep]), sep) == parts
  {
    if |parts| == 1 {
      SplitFree(parts[0], sep);
    } else {
      SplitJoin(parts[1..], sep);
      SplitFreePiece(parts[0], Join(parts[1..], [sep]), sep);
      assert [parts[0]] + parts[1..] == parts;
    }
  }

  /** Every separator inside a part survives the join: the joined text has at
      least the |parts| - 1 separators of the join plus those of any part. */
  lemma {:induction false} CountJoinAtLeast(parts: seq<string>, sep: char, k: nat)
    requires k < |parts|
    ensures Count(Join(parts, [sep]), sep) >= |parts| - 1 + Count(parts[k], sep)
  {
    if |parts| > 1 {
      var rest := Join(parts[1..], [sep]);
      CountAppend(parts[0] + [sep], rest, sep);
      CountAppend(parts[0], [sep], sep);
      assert Count([sep], sep) == 1 by {
        assert [sep][1..] == [];
      }
      if k > 0 {
        CountJoinAtLeast(parts[1..], sep, k - 1);
      } else {
        CountJoinAtLeast(parts[1..], sep, 0);
      }
    }
  }

  /** If a part contains the separator, splitting the join yields more pieces
      than there were parts. */
  lemma SplitJoinMorePieces(parts: seq<string>, sep: char, k: nat)
    requires k < |parts| && !Free(parts[k], sep)
    ensures |Split(Join(parts, [sep]), sep)| > |parts|
  {
    CountPositive(parts[k], sep);
    CountJoinAtLeast(parts, sep, k);
    SplitCount(Join(parts, [sep]), sep);
  }

  /** Joining parts that lack a character with a different separator gives a
      text that lacks it too. */
  lemma {:induction false} JoinFree(parts: seq<string>, sep: char, c: char)
    requires sep != c
    requires forall i :: 0 <= i < |parts| ==> Free(parts[i], c)
    ensures Free(Join(parts, [sep]), c)
  {
    if |parts| > 1 {
      JoinFree(parts[1..], sep, c);
      var rest := Join(parts[1..], [sep]);
      assert Join(parts, [sep]) == parts[0] + [sep] + rest;
      forall i | 0 <= i < |Join(parts, [sep])| ensures Join(parts, [sep])[i] != c {
        if i < |parts[0]| {
          assert Join(parts, [sep])[i] == parts[0][i];
        } else if i > |parts[0]| {
          assert Join(parts, [sep])[i] == rest[i - |parts[0]| - 1];
        }
      }
    }
  }

  /** The joined text begins with the first part. */
  lemma JoinStartsWithFirst(parts: seq<string>, sep: string)
    requires |parts| >= 1
    ensures parts[0] <= Join(parts, sep)
  {
  }

  /** `s.includes(sub)`. */
  predicate Contains(s: string, sub: string)
  {
    exists i :: 0 <= i <= |s| - |sub| && OccursAt(s, sub, i)
  }

  predicate OccursAt(s: string, sub: string, i: int)
    requires 0 <= i <= |s| - |sub|
  {
    s[i..i + |sub|] == sub
  }

  /** Whatever contains `big` contains every prefix of `big`. */
  lemma ContainsPrefix(s: string, big: string, small: string)
    requires Contains(s, big) && small <= big
    ensures Contains(s, small)
  {
    var i :| 0 <= i <= |s| - |big| && OccursAt(s, big, i);
    assert s[i..i + |small|] == big[..|small|];
    assert OccursAt(s, small, i);
  }

  function LowerChar(c: char): char
  {
    if 'A' <= c <= 'Z' then (c as int + 32) as char else c
  }

  /** `toLowerCase()` on the ASCII letters. */
  function ToLower(s: string): (r: string)
    ensures |r| == |s|
    ensures forall i :: 0 <= i < |s| ==> r[i] == LowerChar(s[i])
  {
    seq(|s|, i requires 0 <= i < |s| => LowerChar(s[i]))
  }

  /** The characters `String.prototype.trim` removes. */
  predicate IsSpace(c: char)
  {
    c == ' ' || c == '\t' || c == '\n' || c == '\r' || c == '\U{000B}' || c == '\U{000C}'
    || c == '\U{00A0}' || c == '\U{1680}' || ('\U{2000}' <= c <= '\U{200A}')
    || c == '\U{2028}' || c == '\U{2029}' || c == '\U{202F}' || c == '\U{205F}'
    || c == '\U{3000}' || c == '\U{FEFF}'
  }

  /** `s.trim() === ''`: the text is whitespace only. */
  predicate IsBlank(s: string)
  {
    forall i :: 0 <= i < |s| ==> IsSpace(s[i])
  }

  predicate IsCurrencySign(c: char)
  {
    c == '$' || c == '₹'
  }

  /** `s.replace(/[$₹]/g, "")`. */
  function StripCurrency(s: string): (r: string)
    ensures |r| <= |s|
    ensures forall i :: 0 <= i < |r| ==> !IsCurrencySign(r[i])
  {
    if s == [] then ""
    else if IsCurrencySign(s[0]) then StripCurrency(s[1..])
    else [s[0]] + StripCurrency(s[1..])
  }

  /** Stripping keeps every other character, in order: it distributes over
      concatenation. */
  lemma {:induction false} StripCurrencyAppend(a: string, b: string)
    ensures StripCurrency(a + b) == StripCurrency(a) + StripCurrency(b)
  {
    if a == [] {
      assert a + b == b;
    } else {
      assert (a + b)[1..] == a[1..] + b;
      StripCurrencyAppend(a[1..], b);
    }
  }

  /** Text without currency signs is left as it is, so stripping twice is
      stripping once. */
  lemma {:induction false} StripCurrencyNoSigns(s: string)
    requires forall i :: 0 <= i < |s| ==> !IsCurrencySign(s[i])
    ensures StripCurrency(s) == s
  {
    if s != [] {
      StripCurrencyNoSigns(s[1..]);
    }
  }

  lemma StripCurrencyIdempotent(s: string)
    ensures StripCurrency(StripCurrency(s)) == StripCurrency(s)
  {
    StripCurrencyNoSigns(StripCurrency(s));
  }

  /** JavaScript's `a < b` on strings: lexicographic by character code. */
  predicate LexLess(a: string, b: string)
  {
    if a == [] then b != []
    else if b == [] then false
    else if a[0] != b[0] then a[0] < b[0]
    else LexLess(a[1..], b[1..])
  }

  lemma {:induction false} LexLessIrreflexive(a: string)
    ensures !LexLess(a, a)
  {
    if a != [] {
      LexLessIrreflexive(a[1..]);
    }
  }

  lemma {:induction false} LexLessTransitive(a: string, b: string, c: string)
    requires LexLess(a, b) && LexLess(b, c)
    ensures LexLess(a, c)
  {
    if a != [] && a[0] == b[0] && b[0] == c[0] {
      LexLessTransitive(a[1..], b[1..], c[1..]);
    }
  }

  /** Two different strings are ordered one way or the other. */
  lemma {:induction false} LexLessTotal(a: string, b: string)
    requires a != b
    ensures LexLess(a, b) || LexLess(b, a)
  {
    if a != [] && b != [] && a[0] == b[0] {
      assert a == [a[0]] + a[1..] && b == [b[0]] + b[1..];
      LexLessTotal(a[1..], b[1..]);
    }
  }

  lemma {:induction false} LexLessAsymmetric(a: string, b: string)
    requires LexLess(a, b)
    ensures !LexLess(b, a)
  {
    if a != [] && a[0] == b[0] {
      LexLessAsymmetric(a[1..], b[1..]);
    }
  }
}
