/** Character and string operations the services rely on: ASCII case mapping
    (`toUpperCase`, the case folding of `ILIKE`), `Number.prototype.toString(radix)`,
    JavaScript's clamping `substring`, prefix and substring tests, and the
    code-point order that `ORDER BY` on a text column is modelled with. */
module Text {

  predicate IsLowerLetter(c: char) { 'a' <= c <= 'z' }
  predicate IsUpperLetter(c: char) { 'A' <= c <= 'Z' }
  predicate IsDecimalDigit(c: char) { '0' <= c <= '9' }
  predicate IsAlnum(c: char) { IsDecimalDigit(c) || IsLowerLetter(c) || IsUpperLetter(c) }

  function LowerChar(c: char): char
  {
    if IsUpperLetter(c) then (c as int + 32) as char else c
  }

  function UpperChar(c: char): char
  {
    if IsLowerLetter(c) then (c as int - 32) as char else c
  }

  function Lower(s: string): (r: string)
    ensures |r| == |s|
    ensures forall i :: 0 <= i < |s| ==> !IsUpperLetter(r[i])
    ensures forall i :: 0 <= i < |s| ==> UpperChar(r[i]) == UpperChar(s[i])
  {
    seq(|s|, i requires 0 <= i < |s| => LowerChar(s[i]))
  }

  /** `String.prototype.toUpperCase` restricted to ASCII: no lower-case letter survives, and
      each character still folds to the same lower-case character, so a lower-case letter
      becomes its own capital and every other character is kept. */
  function Upper(s: string): (r: string)
    ensures |r| == |s|
    ensures forall i :: 0 <= i < |s| ==> !IsLowerLetter(r[i])
    ensures forall i :: 0 <= i < |s| ==> LowerChar(r[i]) == LowerChar(s[i])
    ensures forall i :: 0 <= i < |s| ==> (IsAlnum(s[i]) <==> IsAlnum(r[i]))
  {
    seq(|s|, i requires 0 <= i < |s| => UpperChar(s[i]))
  }

  /** The digit for `d` in the lower-case alphabet of `toString(radix)`. */
  function DigitChar(d: nat): char
    requires d < 36
  {
    if d < 10 then ('0' as int + d) as char else ('a' as int + d - 10) as char
  }

  /** The value of a digit in either case; 0 for anything else. */
  function DigitValue(c: char): nat
  {
    if IsDecimalDigit(c) then c as int - '0' as int
    else if IsLowerLetter(c) then c as int - 'a' as int + 10
    else if IsUpperLetter(c) then c as int - 'A' as int + 10
    else 0
  }

  /** `n.toString(base)` for a non-negative integer: most significant digit first, no leading zeros. */
  function ToRadix(n: nat, base: nat): (r: string)
    requires 2 <= base <= 36
    ensures |r| >= 1
    ensures forall i :: 0 <= i < |r| ==> IsAlnum(r[i]) && !IsUpperLetter(r[i])
    ensures forall i :: 0 <= i < |r| ==> DigitValue(r[i]) < base
    ensures r[0] == '0' <==> n == 0
    decreases n
  {
    if n < base then [DigitChar(n)]
    else
      DivModBounds(n, base);
      ToRadix(n / base, base) + [DigitChar(n % base)]
  }

  lemma DivModBounds(n: nat, base: nat)
    requires 2 <= base && base <= n
    ensures 0 <= n / base < n && 0 <= n % base < base && n == n / base * base + n % base
  {
  }

  /** Reads digits of either case back into a number; the inverse of `ToRadix`. */
  function FromRadix(s: string, base: nat): nat
  {
    if s == [] then 0 else FromRadix(s[..|s| - 1], base) * base + DigitValue(s[|s| - 1])
  }

  lemma {:induction false} RadixRoundTrip(n: nat, base: nat)
    requires 2 <= base <= 36
    ensures FromRadix(ToRadix(n, base), base) == n
    decreases n
  {
    var s := ToRadix(n, base);
    if n < base {
      assert s[..|s| - 1] == [];
    } else {
      DivModBounds(n, base);
      RadixRoundTrip(n / base, base);
      assert s[..|s| - 1] == ToRadix(n / base, base);
      assert DigitValue(s[|s| - 1]) == n % base;
    }
  }

  /** Upper-casing a string of digits does not change the number it denotes. */
  lemma {:induction false} FromRadixUpper(s: string, base: nat)
    ensures FromRadix(Upper(s), base) == FromRadix(s, base)
  {
    if s != [] {
      var u := Upper(s);
      assert u[..|u| - 1] == Upper(s[..|s| - 1]);
      FromRadixUpper(s[..|s| - 1], base);
      assert DigitValue(UpperChar(s[|s| - 1])) == DigitValue(s[|s| - 1]);
    }
  }

  function Min(a: nat, b: nat): nat { if a <= b then a else b }

  /** `s.substring(start, end)` for `start <= end`: both indices are clamped to the length. */
  function JsSubstring(s: string, start: nat, end: nat): (r: string)
    requires start <= end
    ensures |r| <= end - start
    ensures |s| >= end ==> |r| == end - start
    ensures |r| == Min(end, |s|) - Min(start, |s|)
    ensures forall i :: 0 <= i < |r| ==> start + i < |s| && r[i] == s[start + i]
  {
    s[Min(start, |s|)..Min(end, |s|)]
  }

  predicate StartsWith(s: string, prefix: string)
  {
    |prefix| <= |s| && s[..|prefix|] == prefix
  }

  /** Substring test by scanning the start positions of `hay`. */
  predicate Contains(hay: string, needle: string)
    decreases |hay|
  {
    StartsWith(hay, needle) || (hay != [] && Contains(hay[1..], needle))
  }

  /** `needle` is found in `hay` starting at position `i`. */
  ghost predicate OccursAt(needle: string, hay: string, i: int)
  {
    0 <= i <= |hay| - |needle| && hay[i..i + |needle|] == needle
  }

  /** `needle` occurs at some position of `hay`: the meaning of `LIKE '%needle%'`. */
  ghost predicate Occurs(needle: string, hay: string)
  {
    exists i :: OccursAt(needle, hay, i)
  }

  lemma ContainsIffOccurs(hay: string, needle: string)
    ensures Contains(hay, needle) <==> Occurs(needle, hay)
  {
    if Contains(hay, needle) {
      ContainsOccurs(hay, needle);
    }
    if Occurs(needle, hay) {
      var i :| OccursAt(needle, hay, i);
      OccursContains(hay, needle, i);
    }
  }

  /** A successful scan has found an occurrence. */
  lemma {:induction false} ContainsOccurs(hay: string, needle: string)
    requires Contains(hay, needle)
    ensures Occurs(needle, hay)
    decreases |hay|
  {
    if StartsWith(hay, needle) {
      assert OccursAt(needle, hay, 0);
    } else {
      var tail := hay[1..];
      ContainsOccurs(tail, needle);
      var i :| OccursAt(needle, tail, i);
      assert tail[i..i + |needle|] == hay[i + 1..i + 1 + |needle|];
      assert OccursAt(needle, hay, i + 1);
    }
  }

  /** An occurrence at position `i` is found by the scan. */
  lemma {:induction false} OccursContains(hay: string, needle: string, i: int)
    requires OccursAt(needle, hay, i)
    ensures Contains(hay, needle)
    decreases i
  {
    if i == 0 {
      assert hay[..|needle|] == needle;
      assert StartsWith(hay, needle);
    } else {
      var tail := hay[1..];
      assert tail[i - 1..i - 1 + |needle|] == hay[i..i + |needle|];
      OccursContains(tail, needle, i - 1);
    }
  }

  /** Case-insensitive substring test, the `ILIKE '%needle%'` of the catalog search. */
  predicate ContainsIgnoringCase(hay: string, needle: string)
  {
    Contains(Lower(hay), Lower(needle))
  }

  /** Lexicographic order on code points. */
  predicate StrLe(a: string, b: string)
  {
    if a == [] then true
    else if b == [] then false
    else if a[0] != b[0] then a[0] < b[0]
    else StrLe(a[1..], b[1..])
  }

  lemma {:induction false} StrLeTotal(a: string, b: string)
    ensures StrLe(a, b) || StrLe(b, a)
  {
    if a != [] && b != [] && a[0] == b[0] {
      StrLeTotal(a[1..], b[1..]);
    }
  }

  lemma {:induction false} StrLeTransitive(a: string, b: string, c: string)
    requires StrLe(a, b) && StrLe(b, c)
    ensures StrLe(a, c)
  {
    if a != [] && b != [] && c != [] && a[0] == b[0] && b[0] == c[0] {
      StrLeTransitive(a[1..], b[1..], c[1..]);
    }
  }

  lemma StrLeIsTotalPreorder()
    ensures forall a, b :: StrLe(a, b) || StrLe(b, a)
    ensures forall a, b, c :: StrLe(a, b) && StrLe(b, c) ==> StrLe(a, c)
  {
    forall a, b ensures StrLe(a, b) || StrLe(b, a) {
      StrLeTotal(a, b);
    }
    forall a, b, c | StrLe(a, b) && StrLe(b, c) ensures StrLe(a, c) {
      StrLeTransitive(a, b, c);
    }
  }

  /** Position of the first `c` in `t` at or after `i`, or `|t|` when there is none. */
  function IndexFrom(t: string, i: nat, c: char): (r: nat)
    ensures i <= |t| ==> i <= r <= |t|
    decreases |t| - i
  {
    if i >= |t| then |t| else if t[i] == c then i else IndexFrom(t, i + 1, c)
  }

  /** In `p + x + [sep] + y`, the first `sep` after `p` ends `x` when `x` holds none. */
  lemma {:induction false} IndexFromSeparator(p: string, x: string, y: string, sep: char, k: nat)
    requires sep !in x && k <= |x|
    ensures IndexFrom(p + x + [sep] + y, |p| + k, sep) == |p| + |x|
    decreases |x| - k
  {
    var t := p + x + [sep] + y;
    if k < |x| {
      assert t[|p| + k] == x[k];
      IndexFromSeparator(p, x, y, sep, k + 1);
    } else {
      assert t[|p| + |x|] == sep;
    }
  }

  /** If `p + x + [sep] + y == p + x' + [sep] + y'` and neither `x` nor `x'` holds `sep`,
      the two middle parts are equal: the separator delimits them. */
  lemma SeparatedPartsEqual(p: string, x: string, y: string, x': string, y': string, sep: char)
    requires sep !in x && sep !in x'
    requires p + x + [sep] + y == p + x' + [sep] + y'
    ensures x == x'
  {
    var s := p + x + [sep] + y;
    IndexFromSeparator(p, x, y, sep, 0);
    IndexFromSeparator(p, x', y', sep, 0);
    assert |x| == |x'|;
    assert x == s[|p|..|p| + |x|];
  }
}
