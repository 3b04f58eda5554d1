/** The string primitives the application relies on, as ECMAScript defines them:
    `String.prototype.trim`, `toLowerCase`, `includes`, `split` on one character,
    `Array.prototype.join`, and the decimal rendering of a status number. */
module Text {

  /** WhiteSpace and LineTerminator code points, the characters `trim` removes. */
  predicate IsSpace(c: char) {
    c == '\t' || c == '\n' || c == '\U{B}' || c == '\U{C}' || c == '\r' || c == ' '
    || c == '\U{A0}' || c == '\U{1680}' || ('\U{2000}' <= c <= '\U{200A}')
    || c == '\U{2028}' || c == '\U{2029}' || c == '\U{202F}' || c == '\U{205F}'
    || c == '\U{3000}' || c == '\U{FEFF}'
  }

  ghost predicate AllSpace(s: string) {
    forall i :: 0 <= i < |s| ==> IsSpace(s[i])
  }

  /** Neither end of `s` is white space. */
  predicate IsTrimmed(s: string) {
    s == [] || (!IsSpace(s[0]) && !IsSpace(s[|s| - 1]))
  }

  /** `s` is `r` placed at offset `i`, with only white space around it. */
  ghost predicate Framed(s: string, r: string, i: int) {
    0 <= i && i + |r| <= |s| && s[i..i + |r|] == r && AllSpace(s[..i]) && AllSpace(s[i + |r|..])
  }

  /** The first position at or after `i` that does not hold white space (`|s|` if none). */
  function SkipSpace(s: string, i: nat): (j: nat)
    requires i <= |s|
    ensures i <= j <= |s|
    ensures j < |s| ==> !IsSpace(s[j])
    decreases |s| - i
  {
    if i < |s| && IsSpace(s[i]) then SkipSpace(s, i + 1) else i
  }

  /** Everything `SkipSpace` passes over is white space. */
  lemma {:induction false} SkipSpacePassesSpace(s: string, i: nat)
    requires i <= |s|
    ensures forall m :: i <= m < SkipSpace(s, i) ==> IsSpace(s[m])
    decreases |s| - i
  {
    if i < |s| && IsSpace(s[i]) {
      SkipSpacePassesSpace(s, i + 1);
    }
  }

  /** The end left once the white space before `j`, but not before `lo`, is dropped. */
  function DropSpace(s: string, lo: nat, j: nat): (k: nat)
    requires lo <= j <= |s|
    ensures lo <= k <= j
    ensures k > lo ==> !IsSpace(s[k - 1])
  {
    if j > lo && IsSpace(s[j - 1]) then DropSpace(s, lo, j - 1) else j
  }

  /** Everything `DropSpace` drops is white space. */
  lemma {:induction false} DropSpaceDropsSpace(s: string, lo: nat, j: nat)
    requires lo <= j <= |s|
    ensures forall m :: DropSpace(s, lo, j) <= m < j ==> IsSpace(s[m])
  {
    if j > lo && IsSpace(s[j - 1]) {
      DropSpaceDropsSpace(s, lo, j - 1);
    }
  }

  /** Where the text kept by `Trim` starts: the first character that is not white space. */
  function TrimOffset(s: string): (i: nat)
    ensures i <= |s|
    ensures i < |s| ==> !IsSpace(s[i])
  {
    SkipSpace(s, 0)
  }

  /** `String.prototype.trim`: no white space is left at either end, and the result is the
      piece of `s` found where the leading white space ends, with only white space cut away
      on either side. */
  function Trim(s: string): (r: string)
    ensures IsTrimmed(r)
    ensures OccursAt(s, r, TrimOffset(s))
    ensures Framed(s, r, TrimOffset(s))
  {
    var i := TrimOffset(s);
    var k := DropSpace(s, i, |s|);
    SkipSpacePassesSpace(s, 0);
    DropSpaceDropsSpace(s, i, |s|);
    assert forall m :: 0 <= m < i ==> s[..i][m] == s[m];
    assert forall m :: 0 <= m < |s| - k ==> s[k..][m] == s[k + m];
    s[i..k]
  }

  /** Trimming adds no character. */
  lemma TrimNoNewChars(s: string, c: char)
    ensures c in Trim(s) ==> c in s
  {
    var r := Trim(s);
    var i := TrimOffset(s);
    if c in r {
      var k :| 0 <= k < |r| && r[k] == c;
      assert s[i + k] == c;
    }
  }

  lemma TrimTrimmed(s: string)
    requires IsTrimmed(s)
    ensures Trim(s) == s
  {
  }

  /** One space before a trimmed string is cut away again. */
  lemma TrimAfterSpace(t: string)
    requires IsTrimmed(t)
    ensures Trim([' '] + t) == t
  {
    var s := [' '] + t;
    assert SkipSpace(s, 1) == 1;
    assert SkipSpace(s, 0) == 1;
    assert DropSpace(s, 1, |s|) == |s|;
    assert s[1..|s|] == t;
  }

  /** A string made only of white space trims to the empty string. */
  lemma TrimAllSpace(s: string)
    requires AllSpace(s)
    ensures Trim(s) == []
  {
    SkipAllSpace(s, 0);
  }

  lemma {:induction false} SkipAllSpace(s: string, i: nat)
    requires i <= |s| && AllSpace(s)
    ensures SkipSpace(s, i) == |s|
    decreases |s| - i
  {
    if i < |s| {
      SkipAllSpace(s, i + 1);
    }
  }

  /** ASCII case folding of one character. */
  function LowerChar(c: char): (d: char)
    ensures !('A' <= d <= 'Z')
    ensures 'A' <= c <= 'Z' ==> d as int == c as int + 32
    ensures !('A' <= c <= 'Z') ==> d == c
  {
    if 'A' <= c <= 'Z' then (c as int + 32) as char else c
  }

  /** `String.prototype.toLowerCase`, restricted to the ASCII letters. */
  function ToLower(s: string): (r: string)
    ensures |r| == |s|
  {
    seq(|s|, i requires 0 <= i < |s| => LowerChar(s[i]))
  }

  lemma ToLowerIdempotent(s: string)
    ensures ToLower(ToLower(s)) == ToLower(s)
  {
  }

  /** Case folding leaves white space where it is. */
  lemma ToLowerKeepsSpace(s: string)
    requires AllSpace(s)
    ensures AllSpace(ToLower(s))
  {
  }

  predicate OccursAt(s: string, q: string, i: int) {
    0 <= i && i + |q| <= |s| && s[i..i + |q|] == q
  }

  /** `String.prototype.includes`: the empty string is in every string, and a longer string
      is in none. */
  predicate Contains(s: string, q: string)
    ensures q == [] ==> Contains(s, q)
    ensures Contains(s, q) ==> |q| <= |s|
  {
    assert q == [] ==> OccursAt(s, q, 0);
    exists i | 0 <= i <= |s| - |q| :: OccursAt(s, q, i)
  }

  /** Trimming a string gives a piece of it. */
  lemma ContainsTrim(s: string)
    ensures Contains(s, Trim(s))
  {
    assert OccursAt(s, Trim(s), TrimOffset(s));
  }

  /** A query whose first character is nowhere in `s` is not in `s`. */
  lemma FirstCharAbsent(s: string, q: string)
    requires q != [] && q[0] !in s
    ensures !Contains(s, q)
  {
    forall i | 0 <= i <= |s| - |q|
      ensures !OccursAt(s, q, i)
    {
      assert s[i..i + |q|][0] == s[i];
    }
  }

  /** Every string contains itself. */
  lemma ContainsSelf(s: string)
    ensures Contains(s, s)
  {
    assert OccursAt(s, s, 0);
  }

  predicate IsDigit(c: char) {
    '0' <= c <= '9'
  }

  ghost predicate AllDigits(s: string) {
    forall i :: 0 <= i < |s| ==> IsDigit(s[i])
  }

  ghost predicate NoDigits(s: string) {
    forall i :: 0 <= i < |s| ==> !IsDigit(s[i])
  }

  /** A run of digits can only be found inside a string that has digits. */
  lemma NoDigitsNoRun(s: string, q: string)
    requires NoDigits(s) && AllDigits(q) && q != []
    ensures !Contains(s, q)
  {
    forall i | 0 <= i <= |s| - |q|
      ensures !OccursAt(s, q, i)
    {
      assert !IsDigit(s[i]) && IsDigit(q[0]);
      assert s[i..i + |q|][0] != q[0];
    }
  }

  /** An occurrence of `q` in `a` is one in `a + m`. */
  lemma OccursInLeft(a: string, m: string, q: string, i: int)
    requires OccursAt(a, q, i)
    ensures OccursAt(a + m, q, i)
  {
    assert (a + m)[i..i + |q|] == a[i..i + |q|];
  }

  /** An occurrence of `q` in `b` is one in `m + b`, shifted by `|m|`. */
  lemma OccursInRight(m: string, b: string, q: string, j: int)
    requires OccursAt(b, q, j)
    ensures OccursAt(m + b, q, |m| + j)
  {
    assert (m + b)[|m|..] == b;
    assert (m + b)[|m| + j..|m| + j + |q|] == (m + b)[|m|..][j..j + |q|];
  }

  /** An occurrence of `q` in `m + b` that starts after `m` is one in `b`. */
  lemma OccursPastLeft(m: string, b: string, q: string, i: int)
    requires OccursAt(m + b, q, i) && i >= |m|
    ensures OccursAt(b, q, i - |m|)
  {
    assert (m + b)[|m|..] == b;
    assert (m + b)[i..i + |q|] == (m + b)[|m|..][i - |m|..i - |m| + |q|];
  }

  /** An occurrence of `q` in `a + m` that ends before `m` is one in `a`. */
  lemma OccursBeforeRight(a: string, m: string, q: string, i: int)
    requires OccursAt(a + m, q, i) && i + |q| <= |a|
    ensures OccursAt(a, q, i)
  {
    assert (a + m)[i..i + |q|] == a[i..i + |q|];
  }

  /** A run of digits cannot cover the non-digit `c`. */
  lemma NoRunAcross(a: string, c: char, b: string, q: string, i: int)
    requires !IsDigit(c) && AllDigits(q)
    requires 0 <= i <= |a| < i + |q| <= |a| + 1 + |b|
    ensures !OccursAt(a + [c] + b, q, i)
  {
    var s := a + [c] + b;
    assert s[i..i + |q|][|a| - i] == c;
    assert IsDigit(q[|a| - i]);
  }

  /** A run of digits found in `a + [c] + b`, where `c` is not a digit, lies wholly in `a` or wholly in `b`. */
  lemma RunAroundSeparator(a: string, c: char, b: string, q: string)
    requires !IsDigit(c) && AllDigits(q) && q != []
    ensures Contains(a + [c] + b, q) <==> Contains(a, q) || Contains(b, q)
  {
    var s := a + [c] + b;
    assert s == a + ([c] + b) && s == (a + [c]) + b;
    if Contains(s, q) {
      var i :| 0 <= i <= |s| - |q| && OccursAt(s, q, i);
      if i + |q| <= |a| {
        OccursBeforeRight(a, [c] + b, q, i);
      } else {
        if i <= |a| {
          NoRunAcross(a, c, b, q, i);
        }
        OccursPastLeft(a + [c], b, q, i);
      }
    }
    if Contains(a, q) {
      var i :| 0 <= i <= |a| - |q| && OccursAt(a, q, i);
      OccursInLeft(a, [c] + b, q, i);
    }
    if Contains(b, q) {
      var j :| 0 <= j <= |b| - |q| && OccursAt(b, q, j);
      OccursInRight(a + [c], b, q, j);
    }
  }

  /** `String.prototype.split` with a one-character separator: the pieces between separators,
      so there is always one more piece than there are separators. */
  function Split(s: string, sep: char): (pieces: seq<string>)
    ensures |pieces| >= 1
    ensures forall k :: 0 <= k < |pieces| ==> sep !in pieces[k]
  {
    if s == [] then
      [[]]
    else
      var rest := Split(s[1..], sep);
      if s[0] == sep then [[]] + rest else [[s[0]] + rest[0]] + rest[1..]
  }

  /** `Array.prototype.join`: no parts give the empty string, one part gives itself. */
  function Join(parts: seq<string>, sep: string): (r: string)
    ensures parts == [] ==> r == []
    ensures |parts| == 1 ==> r == parts[0]
  {
    if |parts| == 0 then []
    else if |parts| == 1 then parts[0]
    else parts[0] + sep + Join(parts[1..], sep)
  }

  /** Joining the pieces of a split gives back the string. */
  lemma {:induction false} JoinSplit(s: string, sep: char)
    ensures Join(Split(s, sep), [sep]) == s
  {
    if s != [] {
      var rest := Split(s[1..], sep);
      JoinSplit(s[1..], sep);
      if s[0] == sep {
        assert ([[]] + rest)[1..] == rest;
      } else {
        var pieces := [[s[0]] + rest[0]] + rest[1..];
        assert pieces[1..] == rest[1..];
        if |rest| > 1 {
          assert Join(rest, [sep]) == rest[0] + [sep] + Join(rest[1..], [sep]);
        }
      }
    }
  }

  /** A piece free of the separator, followed by anything, ends up in the first piece. */
  lemma {:induction false} SplitAfterPiece(p: string, y: string, sep: char)
    requires sep !in p
    ensures Split(p + y, sep) == [p + Split(y, sep)[0]] + Split(y, sep)[1..]
  {
    if p != [] {
      assert (p + y)[1..] == p[1..] + y;
      SplitAfterPiece(p[1..], y, sep);
      assert [p[0]] + (p[1..] + Split(y, sep)[0]) == p + Split(y, sep)[0];
    } else {
      assert p + y == y && p + Split(y, sep)[0] == Split(y, sep)[0];
    }
  }

  /** Splitting a join of separator-free pieces gives back the pieces. */
  lemma {:induction false} SplitJoin(parts: seq<string>, sep: char)
    requires |parts| >= 1
    requires forall k :: 0 <= k < |parts| ==> sep !in parts[k]
    ensures Split(Join(parts, [sep]), sep) == parts
  {
    if |parts| == 1 {
      SplitAfterPiece(parts[0], [], sep);
      assert parts[0] + [] == parts[0];
    } else {
      var tail := Join(parts[1..], [sep]);
      SplitJoin(parts[1..], sep);
      assert parts[0] + [sep] + tail == parts[0] + ([sep] + tail);
      SplitAfterPiece(parts[0], [sep] + tail, sep);
      assert ([sep] + tail)[0] == sep && ([sep] + tail)[1..] == tail;
      assert Split([sep] + tail, sep) == [[]] + parts[1..];
      assert parts[0] + [] == parts[0];
      assert parts == [parts[0]] + parts[1..];
    }
  }

  function DigitChar(d: nat): (c: char)
    requires d < 10
    ensures IsDigit(c)
  {
    "0123456789"[d]
  }

  /** The decimal numeral of `n`, as a template literal renders a number. */
  function Decimal(n: nat): (r: string)
    ensures r != []
    ensures AllDigits(r)
  {
    if n < 10 then [DigitChar(n)] else Decimal(n / 10) + [DigitChar(n % 10)]
  }

  /** The numeral of a three-digit number is its three digits. */
  lemma DecimalThreeDigits(n: nat)
    requires 100 <= n <= 999
    ensures Decimal(n) == [DigitChar(n / 100), DigitChar(n / 10 % 10), DigitChar(n % 10)]
  {
    var m := n / 10;
    assert 10 <= m && m / 10 == n / 100 && m / 10 < 10;
    assert Decimal(m / 10) == [DigitChar(n / 100)];
    assert Decimal(m) == Decimal(m / 10) + [DigitChar(m % 10)];
    assert Decimal(n) == Decimal(m) + [DigitChar(n % 10)];
  }

  lemma DigitCharInjective(d: nat, e: nat)
    requires d < 10 && e < 10 && DigitChar(d) == DigitChar(e)
    ensures d == e
  {
  }

  /** A three-digit number's numeral reads "404" only for 404 itself. */
  lemma ThreeDigitsMention404(n: nat)
    requires 100 <= n <= 999
    ensures Contains(Decimal(n), "404") <==> n == 404
  {
    var r := Decimal(n);
    DecimalThreeDigits(n);
    assert |r| == 3;
    if Contains(r, "404") {
      var i :| 0 <= i <= |r| - 3 && OccursAt(r, "404", i);
      assert r == "404";
      DigitCharInjective(n / 100, 4);
      DigitCharInjective(n / 10 % 10, 0);
      DigitCharInjective(n % 10, 4);
    }
    if n == 404 {
      assert r == "404";
      assert OccursAt(r, "404", 0);
    }
  }
}
