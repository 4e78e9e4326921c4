/**
 * String operations of the JavaScript runtime that the handlers and the diet page rely on:
 * decimal digits (the regular expression class \d without the u flag, parseInt, number
 * formatting), substring search with String.prototype.split, and String.prototype.trim.
 */
module Text {
  import opened Options

  // ---------------------------------------------------------------------------
  // Decimal digits

  /** The class \d of a regular expression without the u flag: ASCII 0 to 9 only. */
  predicate IsDigit(c: char) {
    '0' <= c <= '9'
  }

  predicate AllDigits(s: string) {
    forall k :: 0 <= k < |s| ==> IsDigit(s[k])
  }

  function DigitValue(c: char): (d: nat)
    requires IsDigit(c)
    ensures d < 10
  {
    (c as int) - ('0' as int)
  }

  function DigitChar(d: nat): (c: char)
    requires d < 10
    ensures IsDigit(c) && DigitValue(c) == d
  {
    ('0' as int + d) as char
  }

  /** parseInt of a string of decimal digits, most significant digit first. */
  function DecimalValue(s: string): (r: nat)
    requires AllDigits(s)
    ensures s != [] ==> r % 10 == DigitValue(s[|s| - 1])
    ensures s == [] ==> r == 0
  {
    if s == [] then 0 else 10 * DecimalValue(s[..|s| - 1]) + DigitValue(s[|s| - 1])
  }

  lemma DecimalValueSnoc(s: string, c: char)
    requires AllDigits(s) && IsDigit(c)
    ensures AllDigits(s + [c])
    ensures DecimalValue(s + [c]) == 10 * DecimalValue(s) + DigitValue(c)
  {
    assert (s + [c])[..|s|] == s;
  }

  /** The decimal text of a non-negative integer, as a template literal `${n}` prints it. */
  function NatToDecimal(n: nat): (s: string)
    ensures |s| > 0 && AllDigits(s)
    ensures DecimalValue(s) == n
    ensures n >= 10 ==> s[0] != '0'
  {
    if n < 10 then [DigitChar(n)]
    else
      var prefix := NatToDecimal(n / 10);
      DecimalValueSnoc(prefix, DigitChar(n % 10));
      prefix + [DigitChar(n % 10)]
  }

  // ---------------------------------------------------------------------------
  // The first run of digits: what /(\d+)/ captures

  function FirstDigitFrom(s: string, i: nat): (k: nat)
    requires i <= |s|
    decreases |s| - i
    ensures i <= k <= |s|
    ensures k < |s| ==> IsDigit(s[k])
    ensures forall m :: i <= m < k ==> !IsDigit(s[m])
  {
    if i == |s| || IsDigit(s[i]) then i else FirstDigitFrom(s, i + 1)
  }

  function DigitRunEnd(s: string, i: nat): (k: nat)
    requires i <= |s|
    decreases |s| - i
    ensures i <= k <= |s|
    ensures k < |s| ==> !IsDigit(s[k])
    ensures forall m :: i <= m < k ==> IsDigit(s[m])
  {
    if i == |s| || !IsDigit(s[i]) then i else DigitRunEnd(s, i + 1)
  }

  /**
   * The bounds (start, end) of the text that /(\d+)/ captures: the leftmost digit and the
   * longest run of digits from there. None when the string holds no digit (match is null).
   */
  function FirstDigitRun(s: string): (r: Option<(nat, nat)>)
    ensures r.None? <==> forall m :: 0 <= m < |s| ==> !IsDigit(s[m])
    ensures r.Some? ==>
      var (i, j) := r.value;
      && i < j <= |s|
      && (forall m :: 0 <= m < i ==> !IsDigit(s[m]))
      && (forall m :: i <= m < j ==> IsDigit(s[m]))
      && (j == |s| || !IsDigit(s[j]))
  {
    var i := FirstDigitFrom(s, 0);
    if i == |s| then None else Some((i, DigitRunEnd(s, i)))
  }

  /** A string made of a digit-free prefix, a run of digits and a rest that does not go on with a digit captures exactly that run. */
  lemma FirstDigitRunOf(prefix: string, digits: string, rest: string)
    requires forall m :: 0 <= m < |prefix| ==> !IsDigit(prefix[m])
    requires |digits| > 0 && AllDigits(digits)
    requires rest == [] || !IsDigit(rest[0])
    ensures FirstDigitRun(prefix + digits + rest) == Some((|prefix|, |prefix| + |digits|))
  {
    var s := prefix + digits + rest;
    var r := FirstDigitRun(s);
    assert forall m :: 0 <= m < |prefix| ==> s[m] == prefix[m];
    assert forall m :: |prefix| <= m < |prefix| + |digits| ==> s[m] == digits[m - |prefix|];
    assert rest != [] ==> s[|prefix| + |digits|] == rest[0];
    assert IsDigit(s[|prefix|]);
  }

  // ---------------------------------------------------------------------------
  // Substring search and String.prototype.split

  predicate OccursAt(s: string, pat: string, k: nat) {
    k + |pat| <= |s| && s[k..k + |pat|] == pat
  }

  lemma SliceOfSlice(s: string, a: nat, b: nat, k: nat, n: nat)
    requires a <= b <= |s| && k + n <= b - a
    ensures s[a..b][k..k + n] == s[a + k..a + k + n]
  {
    var u := s[a..b][k..k + n];
    var v := s[a + k..a + k + n];
    assert forall m :: 0 <= m < n ==> u[m] == v[m];
  }

  /** A slice free of occurrences of pat in s has no occurrence of its own. */
  lemma SliceOccurrences(s: string, pat: string, a: nat, b: nat)
    requires |pat| > 0 && a <= b <= |s|
    requires forall k :: a <= k < b ==> !OccursAt(s, pat, k)
    ensures forall k :: !OccursAt(s[a..b], pat, k)
  {
    forall k: nat
      ensures !OccursAt(s[a..b], pat, k)
    {
      if k + |pat| <= b - a {
        SliceOfSlice(s, a, b, k, |pat|);
        assert !OccursAt(s, pat, a + k);
      }
    }
  }

  /** A string occurs where it is put between two others. */
  lemma OccursBetween(x: string, t: string, y: string)
    ensures OccursAt(x + t + y, t, |x|)
  {
    assert (x + t + y)[|x|..|x| + |t|] == t;
  }

  /** The concatenation of a sequence of strings, as a template literal joins its pieces. */
  function Join(pieces: seq<string>): string {
    if pieces == [] then [] else pieces[0] + Join(pieces[1..])
  }

  lemma {:induction false} JoinConcat(a: seq<string>, b: seq<string>)
    ensures Join(a + b) == Join(a) + Join(b)
  {
    if a == [] {
      assert a + b == b;
    } else {
      assert (a + b)[1..] == a[1..] + b;
      JoinConcat(a[1..], b);
    }
  }

  lemma JoinSplit(pieces: seq<string>, k: nat)
    requires k < |pieces|
    ensures Join(pieces) == Join(pieces[..k]) + pieces[k] + Join(pieces[k + 1..])
  {
    var head, tail := pieces[..k], pieces[k..];
    assert pieces == head + tail;
    assert Join(tail) == pieces[k] + Join(pieces[k + 1..]) by {
      assert tail[0] == pieces[k] && tail[1..] == pieces[k + 1..];
    }
    JoinConcat(head, tail);
  }

  /** Each piece occurs in the joined string right after the pieces before it. */
  lemma JoinPiece(pieces: seq<string>, k: nat)
    requires k < |pieces|
    ensures OccursAt(Join(pieces), pieces[k], |Join(pieces[..k])|)
  {
    JoinSplit(pieces, k);
    OccursBetween(Join(pieces[..k]), pieces[k], Join(pieces[k + 1..]));
  }

  /** So does each pair of neighbouring pieces. */
  lemma JoinPair(pieces: seq<string>, k: nat)
    requires k + 1 < |pieces|
    ensures OccursAt(Join(pieces), pieces[k] + pieces[k + 1], |Join(pieces[..k])|)
  {
    JoinSplit(pieces, k);
    var rest := pieces[k + 1..];
    assert rest[0] == pieces[k + 1] && rest[1..] == pieces[k + 2..];
    assert Join(rest) == pieces[k + 1] + Join(pieces[k + 2..]);
    assert Join(pieces) == Join(pieces[..k]) + (pieces[k] + pieces[k + 1]) + Join(pieces[k + 2..]);
    OccursBetween(Join(pieces[..k]), pieces[k] + pieces[k + 1], Join(pieces[k + 2..]));
  }

  /** The first position at or after i where pat occurs in s, as indexOf(pat, i) finds it. */
  function IndexFrom(s: string, pat: string, i: nat): (r: Option<nat>)
    decreases |s| - i
    ensures r.Some? ==>
      i <= r.value && OccursAt(s, pat, r.value) && forall k :: i <= k < r.value ==> !OccursAt(s, pat, k)
    ensures r.None? ==> forall k :: i <= k ==> !OccursAt(s, pat, k)
  {
    if i + |pat| > |s| then None
    else if s[i..i + |pat|] == pat then Some(i)
    else IndexFrom(s, pat, i + 1)
  }

  /**
   * The bounds (a, b) of `s.split(sep)[1]`: the text after the first occurrence of sep, up to
   * the next occurrence searched from its end, or to the end of s. None when sep does not occur
   * at all, where the split has a single element and index 1 is undefined.
   */
  function SecondField(s: string, sep: string): (r: Option<(nat, nat)>)
    requires |sep| > 0
    ensures r.None? <==> forall k :: !OccursAt(s, sep, k)
    ensures r.Some? ==>
      var (a, b) := r.value;
      && |sep| <= a <= b <= |s|
      && OccursAt(s, sep, a - |sep|)
      && (forall k: nat :: k < a - |sep| ==> !OccursAt(s, sep, k))
      && (forall k :: a <= k < b ==> !OccursAt(s, sep, k))
      && (b == |s| || OccursAt(s, sep, b))
  {
    match IndexFrom(s, sep, 0)
    case None => None
    case Some(first) =>
      var a := first + |sep|;
      match IndexFrom(s, sep, a)
      case None => Some((a, |s|))
      case Some(next) => Some((a, next))
  }

  /** When the first occurrence of sep is the one after base and key holds none, the second field is key. */
  lemma SecondFieldOf(base: string, sep: string, key: string)
    requires |sep| > 0
    requires forall k: nat :: k < |base| ==> !OccursAt(base + sep + key, sep, k)
    requires forall k :: !OccursAt(key, sep, k)
    ensures SecondField(base + sep + key, sep) == Some((|base| + |sep|, |base| + |sep| + |key|))
  {
    var s := base + sep + key;
    var a := |base| + |sep|;
    assert s[|base|..a] == sep;
    assert OccursAt(s, sep, |base|);
    assert s[a..] == key;
    forall k: nat | a <= k
      ensures !OccursAt(s, sep, k)
    {
      if k + |sep| <= |s| {
        SliceOfSlice(s, a, |s|, k - a, |sep|);
        assert !OccursAt(key, sep, k - a);
      }
    }
    var r := SecondField(s, sep);
    var (a', b') := r.value;
    assert a' - |sep| >= |base|;
    assert a' - |sep| <= |base|;
  }

  // ---------------------------------------------------------------------------
  // String.prototype.trim

  /** WhiteSpace and LineTerminator code points of ECMAScript, the ones trim removes. */
  predicate IsJsWhitespace(c: char) {
    || ('\t' <= c <= '\r') || c == ' ' || c == '\U{00A0}' || c == '\U{1680}'
    || ('\U{2000}' <= c <= '\U{200A}') || c == '\U{2028}' || c == '\U{2029}' || c == '\U{202F}'
    || c == '\U{205F}' || c == '\U{3000}' || c == '\U{FEFF}'
  }

  /** The first position at or after i that does not hold whitespace, or the end of s. */
  function SkipSpaceFrom(s: string, i: nat): (k: nat)
    requires i <= |s|
    decreases |s| - i
    ensures i <= k <= |s|
    ensures forall m :: i <= m < k ==> IsJsWhitespace(s[m])
    ensures k < |s| ==> !IsJsWhitespace(s[k])
  {
    if i == |s| || !IsJsWhitespace(s[i]) then i else SkipSpaceFrom(s, i + 1)
  }

  /** The position after the last character before j, and not before lo, that is not whitespace; lo if there is none. */
  function SkipSpaceBack(s: string, lo: nat, j: nat): (k: nat)
    requires lo <= j <= |s|
    ensures lo <= k <= j
    ensures forall m :: k <= m < j ==> IsJsWhitespace(s[m])
    ensures k > lo ==> !IsJsWhitespace(s[k - 1])
  {
    if j == lo || !IsJsWhitespace(s[j - 1]) then j else SkipSpaceBack(s, lo, j - 1)
  }

  /** String.prototype.trim: s without its leading and trailing whitespace. */
  function Trim(s: string): (r: string)
    ensures |r| <= |s|
  {
    var a := SkipSpaceFrom(s, 0);
    s[a..SkipSpaceBack(s, a, |s|)]
  }

  /** trim cuts whitespace off both ends and nothing else: the result is a slice of s and everything cut is whitespace. */
  lemma TrimIsSlice(s: string)
    ensures exists i, j :: (0 <= i <= j <= |s| && Trim(s) == s[i..j]
      && (forall m :: 0 <= m < i ==> IsJsWhitespace(s[m]))
      && (forall m :: j <= m < |s| ==> IsJsWhitespace(s[m])))
  {
    var i := SkipSpaceFrom(s, 0);
    var j := SkipSpaceBack(s, i, |s|);
    assert Trim(s) == s[i..j];
  }

  /** What trim leaves starts and ends with a character that is not whitespace. */
  lemma TrimBorders(s: string)
    ensures Trim(s) == [] || (!IsJsWhitespace(Trim(s)[0]) && !IsJsWhitespace(Trim(s)[|Trim(s)| - 1]))
  {
    var i := SkipSpaceFrom(s, 0);
    var j := SkipSpaceBack(s, i, |s|);
    if i < j {
      assert Trim(s)[0] == s[i] && Trim(s)[|Trim(s)| - 1] == s[j - 1];
    }
  }

  /** trim gives the empty string exactly when the string is all whitespace. */
  lemma TrimEmptyIff(s: string)
    ensures Trim(s) == [] <==> forall m :: 0 <= m < |s| ==> IsJsWhitespace(s[m])
  {
    var i := SkipSpaceFrom(s, 0);
    var j := SkipSpaceBack(s, i, |s|);
    assert |Trim(s)| == j - i;
  }

  /** Skipping whitespace stops at the first character that is not whitespace. */
  lemma {:induction false} SkipSpaceFromAt(s: string, i: nat, k: nat)
    requires i <= k < |s| && !IsJsWhitespace(s[k])
    requires forall m :: i <= m < k ==> IsJsWhitespace(s[m])
    ensures SkipSpaceFrom(s, i) == k
    decreases k - i
  {
    if i < k {
      SkipSpaceFromAt(s, i + 1, k);
    }
  }

  /** Skipping whitespace backwards stops after the last character that is not whitespace. */
  lemma {:induction false} SkipSpaceBackAt(s: string, lo: nat, j: nat, k: nat)
    requires lo < k <= j <= |s| && !IsJsWhitespace(s[k - 1])
    requires forall m :: k <= m < j ==> IsJsWhitespace(s[m])
    ensures SkipSpaceBack(s, lo, j) == k
    decreases j - k
  {
    if k < j {
      SkipSpaceBackAt(s, lo, j - 1, k);
    }
  }

  /** Text that starts and ends with a character that is not whitespace is what trim leaves of it between whitespace. */
  lemma TrimAround(p: string, a: string, q: string)
    requires forall m :: 0 <= m < |p| ==> IsJsWhitespace(p[m])
    requires forall m :: 0 <= m < |q| ==> IsJsWhitespace(q[m])
    requires a != [] && !IsJsWhitespace(a[0]) && !IsJsWhitespace(a[|a| - 1])
    ensures Trim(p + a + q) == a
  {
    var s := p + a + q;
    var i := |p|;
    var j := |p| + |a|;
    assert s[i] == a[0] && s[j - 1] == a[|a| - 1];
    assert forall m :: 0 <= m < i ==> s[m] == p[m];
    assert forall m :: j <= m < |s| ==> s[m] == q[m - j];
    SkipSpaceFromAt(s, 0, i);
    SkipSpaceBackAt(s, i, |s|, j);
    assert s[i..j] == a;
  }

  /** trim is idempotent. */
  lemma TrimIdempotent(s: string)
    ensures Trim(Trim(s)) == Trim(s)
  {
    var r := Trim(s);
    TrimBorders(s);
    if r != [] {
      TrimAround([], r, []);
      assert [] + r + [] == r;
    }
  }
}
