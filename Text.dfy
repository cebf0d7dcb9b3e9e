/// Text primitives of the ASCII formats: `%d` formatting, decimal digit
/// strings, truncation of a float by `%d`, and `str.split()`.
module Text {
  predicate IsDigit(c: char) {
    '0' <= c <= '9'
  }

  predicate AllDigits(s: string) {
    forall i :: 0 <= i < |s| ==> IsDigit(s[i])
  }

  function DigitChar(d: nat): (c: char)
    requires d < 10
    ensures IsDigit(c)
  {
    ('0' as int + d) as char
  }

  /// Python's `'%d' % n` for a non-negative integer: no sign, no leading zero.
  function Dec(n: nat): (s: string)
    ensures 0 < |s| && AllDigits(s)
    ensures s[0] == '0' ==> n == 0
  {
    if n < 10 then [DigitChar(n)] else Dec(n / 10) + [DigitChar(n % 10)]
  }

  /// The number a string of decimal digits denotes.
  function DigitsValue(s: string): nat
    requires AllDigits(s)
  {
    if s == [] then 0 else DigitsValue(s[..|s| - 1]) * 10 + (s[|s| - 1] as int - '0' as int)
  }

  lemma {:induction false} DecRoundTrip(n: nat)
    ensures DigitsValue(Dec(n)) == n
  {
    if n >= 10 {
      var s := Dec(n);
      assert s[..|s| - 1] == Dec(n / 10);
      DecRoundTrip(n / 10);
    }
  }

  /// Python's `'%d' % v` for any integer.
  function DecInt(v: int): (s: string)
    ensures 0 < |s|
  {
    if v < 0 then "-" + Dec(-v) else Dec(v)
  }

  /// `'%d' % r` for a float `r`: Python converts it with `int()`, which
  /// truncates toward zero.
  function Trunc(r: real): (v: int)
    ensures r >= 0.0 ==> 0 <= v && v as real <= r < v as real + 1.0
    ensures r < 0.0 ==> v <= 0 && v as real - 1.0 < r <= v as real
  {
    if r >= 0.0 then r.Floor else -((-r).Floor)
  }

  /// The characters `str.split()` treats as separators.
  predicate IsSpace(c: char) {
    c == ' ' || c == '\t' || c == '\n' || c == '\r' || c as int == 11 || c as int == 12
  }

  predicate NoSpace(s: string) {
    forall i :: 0 <= i < |s| ==> !IsSpace(s[i])
  }

  lemma DecNoSpace(n: nat)
    ensures NoSpace(Dec(n))
  {
  }

  lemma DecIntNoSpace(v: int)
    ensures NoSpace(DecInt(v))
  {
    if v < 0 {
      DecNoSpace(-v);
    } else {
      DecNoSpace(v);
    }
  }

  /// The longest prefix of `s` without a separator.
  function LeadingWord(s: string): (w: string)
    ensures |w| <= |s| && w == s[..|w|] && NoSpace(w)
    ensures s != [] && !IsSpace(s[0]) ==> 0 < |w|
  {
    if s == [] || IsSpace(s[0]) then [] else [s[0]] + LeadingWord(s[1..])
  }

  /// Python's `str.split()` with no argument: the maximal runs of
  /// non-separator characters, in order.
  function Tokens(s: string): (ts: seq<string>)
    decreases |s|
  {
    if s == [] then []
    else if IsSpace(s[0]) then Tokens(s[1..])
    else
      var w := LeadingWord(s);
      [w] + Tokens(s[|w|..])
  }

  /// Every token is a non-empty run of non-separators.
  lemma {:induction false} TokensAreWords(s: string)
    ensures forall i :: 0 <= i < |Tokens(s)| ==> 0 < |Tokens(s)[i]| && NoSpace(Tokens(s)[i])
    decreases |s|
  {
    if s == [] {
    } else if IsSpace(s[0]) {
      TokensAreWords(s[1..]);
    } else {
      TokensAreWords(s[|LeadingWord(s)|..]);
    }
  }

  lemma {:induction false} LeadingWordBeforeSpace(w: string, rest: string)
    requires NoSpace(w) && rest != [] && IsSpace(rest[0])
    ensures LeadingWord(w + rest) == w
  {
    if w != [] {
      assert (w + rest)[1..] == w[1..] + rest;
      LeadingWordBeforeSpace(w[1..], rest);
    }
  }

  /// A separator-free word followed by a separator is split off whole.
  lemma TokensField(w: string, rest: string)
    requires 0 < |w| && NoSpace(w) && rest != [] && IsSpace(rest[0])
    ensures Tokens(w + rest) == [w] + Tokens(rest[1..])
  {
    LeadingWordBeforeSpace(w, rest);
    assert (w + rest)[|w|..] == rest;
  }

  lemma DropSeparator<T>(sep: seq<T>, w: seq<T>, z: seq<T>)
    requires |sep| == 1
    ensures (sep + w + z)[1..] == w + z
  {
  }

  lemma Regroup<T>(a: seq<T>, sep: seq<T>, b: seq<T>, c: seq<T>, end: seq<T>)
    ensures a + sep + b + sep + c + end == a + (sep + b + (sep + c + end))
  {
  }

  lemma Regroup4<T>(a: seq<T>, sep: seq<T>, b: seq<T>, c: seq<T>, d: seq<T>, end: seq<T>)
    ensures a + sep + b + sep + c + sep + d + end == a + (sep + (b + (sep + (c + (sep + (d + end))))))
  {
  }

  /// A separator-free word, a separator, then the rest.
  lemma TokensCons(w: string, sep: string, rest: string)
    requires 0 < |w| && NoSpace(w) && |sep| == 1 && IsSpace(sep[0])
    ensures Tokens(w + (sep + rest)) == [w] + Tokens(rest)
  {
    TokensField(w, sep + rest);
    assert (sep + rest)[1..] == rest;
  }

  /// Three separator-free words, each followed by a single separator,
  /// split back into those words.
  lemma TokensSeparated(a: string, b: string, c: string, sep: string, end: string)
    requires 0 < |a| && 0 < |b| && 0 < |c| && NoSpace(a) && NoSpace(b) && NoSpace(c)
    requires |sep| == 1 && IsSpace(sep[0]) && |end| == 1 && IsSpace(end[0])
    ensures Tokens(a + sep + b + sep + c + end) == [a, b, c]
  {
    var y := sep + c + end;
    var x := sep + b + y;
    TokensField(c, end);
    assert end[1..] == [];
    TokensField(b, y);
    DropSeparator(sep, c, end);
    TokensField(a, x);
    DropSeparator(sep, b, y);
    Regroup(a, sep, b, c, end);
  }

  /// Four separator-free words, each followed by a single separator,
  /// split back into those words.
  lemma TokensFour(a: string, b: string, c: string, d: string, sep: string, end: string)
    requires 0 < |a| && 0 < |b| && 0 < |c| && 0 < |d|
    requires NoSpace(a) && NoSpace(b) && NoSpace(c) && NoSpace(d)
    requires |sep| == 1 && IsSpace(sep[0]) && |end| == 1 && IsSpace(end[0])
    ensures Tokens(a + sep + b + sep + c + sep + d + end) == [a, b, c, d]
  {
    var t3 := d + end;
    TokensCons(d, end, []);
    assert d + (end + []) == t3;
    var t2 := c + (sep + t3);
    TokensCons(c, sep, t3);
    var t1 := b + (sep + t2);
    TokensCons(b, sep, t2);
    TokensCons(a, sep, t1);
    Regroup4(a, sep, b, c, d, end);
  }
}
