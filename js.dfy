/** The few JavaScript built-ins the core relies on, with their ECMAScript
    semantics written out: integral Numbers with NaN, `parseInt`,
    `String.prototype.split` with a string separator, `Array.prototype.join`,
    `trim`, splitting on `/\s+/`, `startsWith`, ASCII case mapping and the
    truncating `%` operator. */
module Js {
  import opened Wrappers

  /** A JavaScript Number as the core uses it: an integral value or NaN.
      Fractional values never arise in the modelled code paths. */
  datatype JsNumber = Num(v: int) | NaN

  /** `ToBoolean`: 0 and NaN are falsy. */
  predicate Truthy(x: JsNumber) { x.Num? && x.v != 0 }

  /** Truthiness of an optional string field: present and not empty. */
  predicate Present(s: Option<string>) { s.Some? && s.value != "" }

  function Plus(a: JsNumber, b: JsNumber): (r: JsNumber)
    ensures r.Num? <==> a.Num? && b.Num?
    ensures r.Num? ==> r.v == a.v + b.v
  {
    if a.Num? && b.Num? then Num(a.v + b.v) else NaN
  }

  function Minus(a: JsNumber, b: JsNumber): (r: JsNumber)
    ensures r.Num? <==> a.Num? && b.Num?
    ensures r.Num? ==> r.v == a.v - b.v
  {
    if a.Num? && b.Num? then Num(a.v - b.v) else NaN
  }

  function Times(a: JsNumber, k: int): (r: JsNumber)
    ensures r.Num? <==> a.Num?
    ensures r.Num? ==> r.v == a.v * k
  {
    if a.Num? then Num(a.v * k) else NaN
  }

  /** The relational operator `a > b` on Numbers: false whenever NaN is involved. */
  predicate Greater(a: JsNumber, b: JsNumber) { a.Num? && b.Num? && a.v > b.v }

  /** `Math.abs` on an integral value. */
  function Abs(x: int): (r: nat)
    ensures r == x || r == -x
  {
    if x < 0 then -x else x
  }

  /** The `%` operator of JavaScript: the remainder takes the sign of the
      dividend (truncating division), unlike Dafny's Euclidean `%`. */
  function JsRem(a: int, n: int): (r: int)
    requires n > 0
    ensures a >= 0 ==> 0 <= r < n
    ensures a < 0 ==> -n < r <= 0
    ensures Abs(r) == Abs(a) % n
  {
    if a >= 0 then a % n else -((-a) % n)
  }

  // ---------------------------------------------------------------- characters

  /** WhiteSpace and LineTerminator code points of ECMAScript (also the set
      matched by `\s`). */
  predicate IsSpace(c: char)
  {
    var k := c as int;
    (9 <= k <= 13) || k == 0x20 || k == 0xA0 || k == 0x1680 || (0x2000 <= k <= 0x200A) ||
    k == 0x2028 || k == 0x2029 || k == 0x202F || k == 0x205F || k == 0x3000 || k == 0xFEFF
  }

  predicate IsDigit(c: char) { '0' <= c <= '9' }

  predicate IsUpper(c: char) { 'A' <= c <= 'Z' }

  predicate IsLower(c: char) { 'a' <= c <= 'z' }

  /** The regular-expression class `\w`. */
  predicate IsWordChar(c: char) { IsUpper(c) || IsLower(c) || IsDigit(c) || c == '_' }

  function ToLowerChar(c: char): (r: char)
    ensures !IsUpper(r)
    ensures IsUpper(c) ==> IsLower(r) && r as int == c as int + 32
    ensures !IsUpper(c) ==> r == c
  {
    if IsUpper(c) then (c as int + 32) as char else c
  }

  function ToUpperChar(c: char): (r: char)
    ensures !IsLower(r)
    ensures IsLower(c) ==> IsUpper(r) && r as int == c as int - 32
    ensures !IsLower(c) ==> r == c
  {
    if IsLower(c) then (c as int - 32) as char else c
  }

  /** `String.prototype.toLowerCase`, on the ASCII letters. */
  function ToLower(s: string): (r: string)
    ensures |r| == |s|
    ensures forall i :: 0 <= i < |s| ==> r[i] == ToLowerChar(s[i])
  {
    if s == [] then [] else [ToLowerChar(s[0])] + ToLower(s[1..])
  }

  /** `String.prototype.toUpperCase`, on the ASCII letters. */
  function ToUpper(s: string): (r: string)
    ensures |r| == |s|
    ensures forall i :: 0 <= i < |s| ==> r[i] == ToUpperChar(s[i])
  {
    if s == [] then [] else [ToUpperChar(s[0])] + ToUpper(s[1..])
  }

  // ---------------------------------------------------------------- strings

  predicate StartsWith(s: string, prefix: string)
  {
    |prefix| <= |s| && s[..|prefix|] == prefix
  }

  /** `sep` occurs in `s` at position `i`. */
  predicate OccursAt(s: string, sep: string, i: int)
  {
    0 <= i && i + |sep| <= |s| && s[i..i + |sep|] == sep
  }

  predicate Contains(s: string, sep: string)
  {
    exists i :: 0 <= i <= |s| && OccursAt(s, sep, i)
  }

  /** The first position at or after `from` where `sep` occurs. */
  function IndexOfFrom(s: string, sep: string, from: nat): (r: Option<nat>)
    requires from <= |s|
    ensures r.Some? ==> from <= r.value <= |s| && OccursAt(s, sep, r.value)
    ensures forall i :: from <= i <= |s| && (r.Some? ==> i < r.value) ==> !OccursAt(s, sep, i)
    decreases |s| - from
  {
    if OccursAt(s, sep, from) then Some(from)
    else if from == |s| then None
    else IndexOfFrom(s, sep, from + 1)
  }

  /** `String.prototype.indexOf`. */
  function IndexOf(s: string, sep: string): (r: Option<nat>)
    ensures r.Some? ==> r.value <= |s| && OccursAt(s, sep, r.value)
    ensures r.Some? ==> forall i :: 0 <= i < r.value ==> !OccursAt(s, sep, i)
    ensures r.None? <==> !Contains(s, sep)
  {
    IndexOfFrom(s, sep, 0)
  }

  /** `String.prototype.split` with a non-empty string separator and no limit:
      the pieces between successive left-most occurrences, empty pieces kept. */
  function Split(s: string, sep: string): (r: seq<string>)
    requires |sep| > 0
    ensures |r| >= 1
    decreases |s|
  {
    match IndexOf(s, sep)
    case None => [s]
    case Some(i) => [s[..i]] + Split(s[i + |sep|..], sep)
  }

  /** `Array.prototype.join`. */
  function Join(parts: seq<string>, sep: string): string
  {
    if parts == [] then []
    else if |parts| == 1 then parts[0]
    else parts[0] + sep + Join(parts[1..], sep)
  }

  /** Joining the pieces of a split with the same separator gives back the string. */
  lemma {:induction false} JoinSplit(s: string, sep: string)
    requires |sep| > 0
    ensures Join(Split(s, sep), sep) == s
    decreases |s|
  {
    match IndexOf(s, sep)
    case None =>
    case Some(i) =>
      var rest := s[i + |sep|..];
      var pieces := Split(rest, sep);
      JoinSplit(rest, sep);
      var all := [s[..i]] + pieces;
      assert Split(s, sep) == all;
      assert all[0] == s[..i] && all[1..] == pieces && |all| >= 2;
      assert Join(all, sep) == s[..i] + sep + Join(pieces, sep);
      assert s[i..i + |sep|] == sep;
      assert s == s[..i] + s[i..i + |sep|] + rest;
  }

  /** No piece of a split contains the separator. */
  lemma {:induction false} SplitPiecesFree(s: string, sep: string)
    requires |sep| > 0
    ensures forall k :: 0 <= k < |Split(s, sep)| ==> !Contains(Split(s, sep)[k], sep)
    decreases |s|
  {
    match IndexOf(s, sep)
    case None =>
    case Some(i) =>
      var rest := s[i + |sep|..];
      SplitPiecesFree(rest, sep);
      var head := s[..i];
      forall j | 0 <= j <= |head| && OccursAt(head, sep, j) ensures false {
        assert s[j..j + |sep|] == head[j..j + |sep|];
        assert OccursAt(s, sep, j);
      }
  }

  /** A string without the separator splits into itself alone. */
  lemma SplitFree(s: string, sep: string)
    requires |sep| > 0 && !Contains(s, sep)
    ensures Split(s, sep) == [s]
  {
  }

  /** A string that begins with the separator splits into an empty piece
      followed by the pieces of the rest. */
  lemma SplitLeading(sep: string, t: string)
    requires |sep| > 0
    ensures Split(sep + t, sep) == [""] + Split(t, sep)
  {
    var s := sep + t;
    assert OccursAt(s, sep, 0) by { assert s[0..|sep|] == sep; }
    assert IndexOf(s, sep) == Some(0);
    assert s[|sep|..] == t;
  }

  /** `String.prototype.trimStart`. */
  function TrimStart(s: string): (r: string)
    ensures |r| <= |s| && r == s[|s| - |r|..]
    ensures r == [] || !IsSpace(r[0])
    ensures forall i :: 0 <= i < |s| - |r| ==> IsSpace(s[i])
  {
    if s != [] && IsSpace(s[0]) then TrimStart(s[1..]) else s
  }

  function TrimEnd(s: string): (r: string)
    ensures |r| <= |s| && r == s[..|r|]
    ensures r == [] || !IsSpace(r[|r| - 1])
    ensures forall i :: |r| <= i < |s| ==> IsSpace(s[i])
  {
    if s != [] && IsSpace(s[|s| - 1]) then TrimEnd(s[..|s| - 1]) else s
  }

  /** `String.prototype.trim`. */
  function Trim(s: string): (r: string)
    ensures r == [] || (!IsSpace(r[0]) && !IsSpace(r[|r| - 1]))
  {
    var t := TrimStart(s);
    var u := TrimEnd(t);
    assert u != [] ==> u[0] == t[0];
    u
  }

  /** Index of the first whitespace character at or after `from`, or |s|. */
  function NextSpace(s: string, from: nat): (r: nat)
    requires from <= |s|
    ensures from <= r <= |s|
    ensures r < |s| ==> IsSpace(s[r])
    ensures forall i :: from <= i < r ==> !IsSpace(s[i])
    decreases |s| - from
  {
    if from == |s| || IsSpace(s[from]) then from else NextSpace(s, from + 1)
  }

  /** Index of the first non-whitespace character at or after `from`, or |s|. */
  function SkipSpace(s: string, from: nat): (r: nat)
    requires from <= |s|
    ensures from <= r <= |s|
    ensures r < |s| ==> !IsSpace(s[r])
    ensures forall i :: from <= i < r ==> IsSpace(s[i])
    decreases |s| - from
  {
    if from == |s| || !IsSpace(s[from]) then from else SkipSpace(s, from + 1)
  }

  /** `s.split(/\s+/)`: the pieces between maximal whitespace runs. */
  function SplitSpaces(s: string): (r: seq<string>)
    ensures |r| >= 1
    ensures forall k :: 0 <= k < |r| ==> forall i :: 0 <= i < |r[k]| ==> !IsSpace(r[k][i])
    decreases |s|
  {
    var i := NextSpace(s, 0);
    if i == |s| then [s]
    else
      var j := SkipSpace(s, i);
      [s[..i]] + SplitSpaces(s[j..])
  }

  /** On a string that neither starts nor ends with whitespace, every piece of
      `split(/\s+/)` is non-empty (the empty string still gives one empty piece). */
  lemma {:induction false} SplitSpacesNonEmpty(s: string)
    requires s != [] && !IsSpace(s[0]) && !IsSpace(s[|s| - 1])
    ensures forall k :: 0 <= k < |SplitSpaces(s)| ==> SplitSpaces(s)[k] != []
    decreases |s|
  {
    var i := NextSpace(s, 0);
    if i < |s| {
      var j := SkipSpace(s, i);
      assert j < |s|;
      SplitSpacesNonEmpty(s[j..]);
    }
  }

  /** A word with no whitespace in it. */
  predicate Word(w: string)
  {
    w != [] && forall i :: 0 <= i < |w| ==> !IsSpace(w[i])
  }

  /** Joining words with single spaces starts with the first word, followed
      by the space when there are more words. */
  lemma JoinWordsHead(ws: seq<string>)
    requires |ws| >= 1
    ensures |Join(ws, " ")| >= |ws[0]| && Join(ws, " ")[..|ws[0]|] == ws[0]
    ensures |ws| == 1 ==> Join(ws, " ") == ws[0]
    ensures |ws| > 1 ==> Join(ws, " ") == ws[0] + " " + Join(ws[1..], " ")
  {
  }

  /** `split(/\s+/)` takes apart what `join(" ")` put together from words. */
  lemma {:induction false} SplitSpacesJoin(ws: seq<string>)
    requires |ws| >= 1 && forall k :: 0 <= k < |ws| ==> Word(ws[k])
    ensures SplitSpaces(Join(ws, " ")) == ws
    decreases |ws|
  {
    var s := Join(ws, " ");
    JoinWordsHead(ws);
    var i := NextSpace(s, 0);
    if |ws| == 1 {
      assert i == |s|;
    } else {
      var rest := Join(ws[1..], " ");
      assert s == ws[0] + " " + rest;
      JoinWordsHead(ws[1..]);
      assert Word(ws[1]);
      assert s[|ws[0]|] == ' ';
      assert i == |ws[0]|;
      var j := SkipSpace(s, i);
      assert s[i + 1] == ws[1][0];
      assert j == i + 1;
      assert s[..i] == ws[0] && s[j..] == rest;
      SplitSpacesJoin(ws[1..]);
      assert ws == [ws[0]] + ws[1..];
    }
  }

  // ---------------------------------------------------------------- numbers

  function DigitValue(c: char): (r: int)
  {
    if '0' <= c <= '9' then c as int - '0' as int
    else if 'a' <= c <= 'z' then c as int - 'a' as int + 10
    else if 'A' <= c <= 'Z' then c as int - 'A' as int + 10
    else 36
  }

  predicate IsRadixDigit(c: char, radix: nat) { DigitValue(c) < radix }

  /** Length of the longest prefix of `s` made of digits of the radix. */
  function DigitRun(s: string, radix: nat): (n: nat)
    ensures n <= |s|
    ensures forall i :: 0 <= i < n ==> IsRadixDigit(s[i], radix)
    ensures n < |s| ==> !IsRadixDigit(s[n], radix)
  {
    if s != [] && IsRadixDigit(s[0], radix) then 1 + DigitRun(s[1..], radix) else 0
  }

  /** The mathematical value of a digit string, most significant digit first. */
  function DigitsValue(ds: string, radix: nat): int
  {
    if ds == [] then 0
    else DigitsValue(ds[..|ds| - 1], radix) * radix + DigitValue(ds[|ds| - 1])
  }

  /** `parseInt(s, 10)` when `hexPrefix` is false, `parseInt(s)` when it is true:
      skip leading whitespace, take an optional sign, (without an explicit radix)
      a `0x`/`0X` prefix switches to base 16, then read the longest digit prefix;
      no digit at all gives NaN. */
  function ParseInt(s: string, hexPrefix: bool): JsNumber
  {
    var t := TrimStart(s);
    var negative := t != [] && t[0] == '-';
    var u := if t != [] && (t[0] == '-' || t[0] == '+') then t[1..] else t;
    var hex := hexPrefix && |u| >= 2 && u[0] == '0' && (u[1] == 'x' || u[1] == 'X');
    var radix := if hex then 16 else 10;
    var w := if hex then u[2..] else u;
    var n := DigitRun(w, radix);
    if n == 0 then NaN
    else
      var m := DigitsValue(w[..n], radix);
      Num(if negative then -m else m)
  }

  /** `Number.prototype.toString()` of a natural number, in decimal. */
  function NatToString(n: nat): (r: string)
    ensures |r| >= 1
    ensures forall i :: 0 <= i < |r| ==> IsDigit(r[i])
  {
    if n < 10 then [(n + '0' as int) as char]
    else NatToString(n / 10) + [(n % 10 + '0' as int) as char]
  }

  /** `String(n)` of an integer, in decimal. */
  function IntToString(n: int): (r: string)
    ensures |r| >= 1
  {
    if n < 0 then "-" + NatToString(-n) else NatToString(n)
  }

  lemma {:induction false} NatToStringValue(n: nat)
    ensures DigitRun(NatToString(n), 10) == |NatToString(n)|
    ensures DigitsValue(NatToString(n), 10) == n
  {
    var r := NatToString(n);
    if n >= 10 {
      NatToStringValue(n / 10);
      assert r[..|r| - 1] == NatToString(n / 10);
    }
    DigitRunAll(r, 10);
  }

  lemma {:induction false} DigitRunAll(s: string, radix: nat)
    requires forall i :: 0 <= i < |s| ==> IsRadixDigit(s[i], radix)
    ensures DigitRun(s, radix) == |s|
  {
    if s != [] { DigitRunAll(s[1..], radix); }
  }

  /** `parseInt` reads back the decimal rendering of every natural number. */
  lemma ParseNatToString(n: nat, hexPrefix: bool)
    ensures ParseInt(NatToString(n), hexPrefix) == Num(n)
  {
    var d := NatToString(n);
    NatToStringValue(n);
    NatToStringLeading(n);
    assert IsDigit(d[0]);
    assert !IsSpace(d[0]);
    assert TrimStart(d) == d;
    assert d[0] != '-' && d[0] != '+';
    assert |d| >= 2 ==> d[0] != '0';
    assert DigitRun(d, 10) == |d|;
    assert d[..|d|] == d;
  }

  /** `parseInt` reads back the decimal rendering of every integer. */
  lemma ParseIntToString(n: int, hexPrefix: bool)
    ensures ParseInt(IntToString(n), hexPrefix) == Num(n)
  {
    if n < 0 {
      var d := NatToString(-n);
      var s := "-" + d;
      NatToStringValue(-n);
      NatToStringLeading(-n);
      assert TrimStart(s) == s;
      assert s[1..] == d;
      assert d[..|d|] == d;
    } else {
      ParseNatToString(n, hexPrefix);
    }
  }

  /** A decimal rendering of more than one digit never starts with 0. */
  lemma {:induction false} NatToStringLeading(n: nat)
    ensures |NatToString(n)| >= 2 ==> NatToString(n)[0] != '0'
  {
    if n >= 10 {
      NatToStringLeading(n / 10);
      assert NatToString(n)[0] == NatToString(n / 10)[0];
    }
  }
}
