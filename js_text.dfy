/**
 * The JavaScript string built-ins the dashboard relies on, over ASCII:
 * `trim`/`trimStart`, `split` on one character, `toLowerCase`, `toUpperCase`,
 * `includes`, `replace` with a one-character pattern and an empty replacement,
 * and `parseInt` with its default radix on decimal input.
 */
module JsText {
  import opened Wrappers

  /** The ASCII characters that `trim` and `parseInt` skip as white space or line terminators. */
  predicate IsSpace(c: char) {
    c == ' ' || c == '\t' || c == '\n' || c == '\r' || c == '\U{0B}' || c == '\U{0C}'
  }

  predicate IsBlank(s: string) {
    forall i :: 0 <= i < |s| ==> IsSpace(s[i])
  }

  predicate IsDigit(c: char) {
    '0' <= c <= '9'
  }

  // ---------------------------------------------------------------- trim

  /** `trimStart`: the suffix of `s` left once its leading white space is cut. */
  function TrimStart(s: string): (r: string)
    ensures |r| <= |s| && r == s[|s| - |r|..]
    ensures IsBlank(s[..|s| - |r|])
    ensures r == [] || !IsSpace(r[0])
  {
    if |s| > 0 && IsSpace(s[0]) then
      var r := TrimStart(s[1..]);
      assert s[..|s| - |r|] == [s[0]] + s[1..][..|s| - 1 - |r|];
      r
    else s
  }

  /** White space added at the front does not change what `trimStart` returns. */
  lemma {:induction false} TrimStartPadded(a: string, s: string)
    requires IsBlank(a)
    ensures TrimStart(a + s) == TrimStart(s)
    decreases |a|
  {
    if |a| > 0 {
      assert (a + s)[0] == a[0] && IsSpace(a[0]);
      assert (a + s)[1..] == a[1..] + s;
      TrimStartPadded(a[1..], s);
    } else {
      assert a + s == s;
    }
  }

  /** `trim`: cuts white space off both ends of `s`. */
  function Trim(s: string): (r: string)
    ensures |r| <= |s|
    ensures r == [] || (!IsSpace(r[0]) && !IsSpace(r[|r| - 1]))
  {
    if |s| > 0 && IsSpace(s[0]) then Trim(s[1..])
    else if |s| > 0 && IsSpace(s[|s| - 1]) then Trim(s[..|s| - 1])
    else s
  }

  /** `trim` gives the empty string exactly when the text is all white space. */
  lemma {:induction false} TrimEmptyIffBlank(s: string)
    ensures Trim(s) == [] <==> IsBlank(s)
  {
    if |s| > 0 && IsSpace(s[0]) {
      TrimEmptyIffBlank(s[1..]);
      assert s == [s[0]] + s[1..];
      BlankConcat([s[0]], s[1..]);
    } else if |s| > 0 && IsSpace(s[|s| - 1]) {
      TrimEmptyIffBlank(s[..|s| - 1]);
      assert !IsBlank(s);
    }
  }

  lemma {:induction false} BlankConcat(a: string, b: string)
    ensures IsBlank(a + b) <==> IsBlank(a) && IsBlank(b)
  {
    if IsBlank(a) && IsBlank(b) {
      forall i | 0 <= i < |a + b| ensures IsSpace((a + b)[i]) {
        if i < |a| { assert (a + b)[i] == a[i]; } else { assert (a + b)[i] == b[i - |a|]; }
      }
    }
    if IsBlank(a + b) {
      forall i | 0 <= i < |a| ensures IsSpace(a[i]) { assert (a + b)[i] == a[i]; }
      forall i | 0 <= i < |b| ensures IsSpace(b[i]) { assert (a + b)[|a| + i] == b[i]; }
    }
  }

  /** White space added at the front does not change what `trim` returns ... */
  lemma {:induction false} TrimPadStart(a: string, s: string)
    requires IsBlank(a)
    ensures Trim(a + s) == Trim(s)
    decreases |a|
  {
    if |a| > 0 {
      assert (a + s)[0] == a[0] && IsSpace(a[0]);
      assert (a + s)[1..] == a[1..] + s;
      TrimPadStart(a[1..], s);
    } else {
      assert a + s == s;
    }
  }

  /** ... nor does white space added at the end. */
  lemma {:induction false} TrimPadEnd(s: string, b: string)
    requires IsBlank(b)
    ensures Trim(s + b) == Trim(s)
    decreases |s| + |b|
  {
    var t := s + b;
    if |b| == 0 {
      assert t == s;
    } else if |t| > 0 && IsSpace(t[0]) {
      if |s| > 0 {
        assert t[0] == s[0];
        assert t[1..] == s[1..] + b;
        TrimPadEnd(s[1..], b);
      } else {
        assert t == b && t[1..] == [] + b[1..];
        TrimPadEnd([], b[1..]);
      }
    } else {
      assert t[|t| - 1] == b[|b| - 1];
      assert t[..|t| - 1] == s + b[..|b| - 1];
      TrimPadEnd(s, b[..|b| - 1]);
    }
  }

  /** White space added at either end does not change what `trim` returns. */
  lemma {:induction false} TrimPadded(a: string, s: string, b: string)
    requires IsBlank(a) && IsBlank(b)
    ensures Trim(a + s + b) == Trim(s)
  {
    assert a + s + b == a + (s + b);
    TrimPadStart(a, s + b);
    TrimPadEnd(s, b);
  }

  /** A string whose ends are not white space is its own `trim`; hence `trim` is idempotent. */
  lemma {:induction false} TrimTight(s: string)
    requires s == [] || (!IsSpace(s[0]) && !IsSpace(s[|s| - 1]))
    ensures Trim(s) == s
  {
  }

  lemma {:induction false} TrimIdempotent(s: string)
    ensures Trim(Trim(s)) == Trim(s)
  {
    TrimTight(Trim(s));
  }

  // ---------------------------------------------------------------- split

  function Occurrences(s: string, c: char): (n: nat)
    ensures n <= |s|
    ensures n == 0 <==> c !in s
  {
    if |s| == 0 then 0 else (if s[0] == c then 1 else 0) + Occurrences(s[1..], c)
  }

  /** `s.split(d)` for a one-character separator: never empty, one more piece than separators, no piece holds `d`. */
  function Split(s: string, d: char): (r: seq<string>)
    ensures |r| == Occurrences(s, d) + 1
    ensures forall i :: 0 <= i < |r| ==> d !in r[i]
    decreases |s|
  {
    if |s| == 0 then [""]
    else
      var rest := Split(s[1..], d);
      if s[0] == d then [""] + rest
      else [[s[0]] + rest[0]] + rest[1..]
  }

  /** The first piece of `s.split(d)` is the text before the first `d`, or all of `s`. */
  lemma {:induction false} SplitFirst(s: string, d: char)
    ensures Split(s, d)[0] == if d in s then s[..IndexOf(s, d)] else s
    decreases |s|
  {
    if |s| > 0 && s[0] != d {
      SplitFirst(s[1..], d);
      assert d in s <==> d in s[1..];
      if d in s {
        assert s[..IndexOf(s, d)] == [s[0]] + s[1..][..IndexOf(s[1..], d)];
      } else {
        assert s == [s[0]] + s[1..];
      }
    }
  }

  /** `parts.join(d)`. */
  function Join(parts: seq<string>, d: char): string
  {
    if |parts| == 0 then ""
    else if |parts| == 1 then parts[0]
    else parts[0] + [d] + Join(parts[1..], d)
  }

  /** Joining the pieces back with the separator gives back the text: `split` loses nothing. */
  lemma {:induction false} JoinSplit(s: string, d: char)
    ensures Join(Split(s, d), d) == s
    decreases |s|
  {
    if |s| > 0 {
      JoinSplit(s[1..], d);
      SplitStep(s, d);
      var rest := Split(s[1..], d);
      if s[0] != d {
        if |rest| == 1 {
          assert s == [s[0]] + s[1..];
        } else {
          assert Join(rest, d) == rest[0] + [d] + Join(rest[1..], d);
          assert [[s[0]] + rest[0]] + rest[1..] == [[s[0]] + rest[0]] + rest[1..];
          assert ([[s[0]] + rest[0]] + rest[1..])[1..] == rest[1..];
        }
      } else {
        assert ([""] + rest)[1..] == rest;
      }
    }
  }

  /** A join whose first piece is not empty starts with that piece's first character. */
  lemma {:induction false} JoinFirstChar(parts: seq<string>, d: char)
    requires |parts| >= 1 && |parts[0]| > 0
    ensures Join(parts, d) == [parts[0][0]] + Join([parts[0][1..]] + parts[1..], d)
  {
    var p, q := parts[0], [parts[0][1..]] + parts[1..];
    assert q[0] == p[1..] && q[1..] == parts[1..];
    assert p == [p[0]] + p[1..];
    if |parts| > 1 {
      assert Join(q, d) == p[1..] + [d] + Join(parts[1..], d);
    }
  }

  /** Dropping the first character of the first piece keeps every piece free of the separator. */
  lemma {:induction false} TailFree(parts: seq<string>, d: char)
    requires |parts| >= 1 && |parts[0]| > 0
    requires forall i :: 0 <= i < |parts| ==> d !in parts[i]
    ensures forall i :: 0 <= i < |[parts[0][1..]] + parts[1..]| ==> d !in ([parts[0][1..]] + parts[1..])[i]
  {
    var q := [parts[0][1..]] + parts[1..];
    forall i | 0 <= i < |q| ensures d !in q[i] {
      if i == 0 {
        assert forall c :: c in parts[0][1..] ==> c in parts[0];
      } else {
        assert q[i] == parts[i];
      }
    }
  }

  /** How `split` treats the first character of a non-empty text. */
  lemma {:induction false} SplitStep(s: string, d: char)
    requires |s| > 0
    ensures s[0] == d ==> Split(s, d) == [""] + Split(s[1..], d)
    ensures s[0] != d ==> Split(s, d) == [[s[0]] + Split(s[1..], d)[0]] + Split(s[1..], d)[1..]
  {
  }

  /** The step of `SplitJoin` for an empty first piece. */
  lemma {:induction false} SplitJoinEmptyHead(parts: seq<string>, d: char)
    requires |parts| > 1 && parts[0] == ""
    requires Split(Join(parts[1..], d), d) == parts[1..]
    ensures Split(Join(parts, d), d) == parts
  {
    var s := Join(parts, d);
    assert s == [] + [d] + Join(parts[1..], d);
    assert s[1..] == Join(parts[1..], d);
    SplitStep(s, d);
    assert parts == [""] + parts[1..];
  }

  /** The step of `SplitJoin` for a first piece that starts with a character other than the separator. */
  lemma {:induction false} SplitJoinCharHead(parts: seq<string>, d: char)
    requires |parts| >= 1 && |parts[0]| > 0 && parts[0][0] != d
    requires Split(Join([parts[0][1..]] + parts[1..], d), d) == [parts[0][1..]] + parts[1..]
    ensures Split(Join(parts, d), d) == parts
  {
    var p, q := parts[0], [parts[0][1..]] + parts[1..];
    var s := Join(parts, d);
    JoinFirstChar(parts, d);
    assert s[0] == p[0] && s[1..] == Join(q, d);
    SplitStep(s, d);
    assert Split(s, d) == [[p[0]] + q[0]] + q[1..];
    assert [p[0]] + p[1..] == p;
    assert parts == [[p[0]] + q[0]] + q[1..];
  }

  /** Splitting a join of separator-free pieces gives back the pieces. */
  lemma {:induction false} SplitJoin(parts: seq<string>, d: char)
    requires |parts| >= 1
    requires forall i :: 0 <= i < |parts| ==> d !in parts[i]
    ensures Split(Join(parts, d), d) == parts
    decreases |parts|, |parts[0]|
  {
    if |parts[0]| == 0 {
      if |parts| > 1 {
        SplitJoin(parts[1..], d);
        SplitJoinEmptyHead(parts, d);
      }
    } else {
      TailFree(parts, d);
      SplitJoin([parts[0][1..]] + parts[1..], d);
      assert parts[0][0] in parts[0];
      SplitJoinCharHead(parts, d);
    }
  }

  // ---------------------------------------------------------------- case

  function LowerChar(c: char): char {
    if 'A' <= c <= 'Z' then (c as int + 32) as char else c
  }

  function UpperChar(c: char): char {
    if 'a' <= c <= 'z' then (c as int - 32) as char else c
  }

  predicate HasUpper(s: string) {
    exists i :: 0 <= i < |s| && 'A' <= s[i] <= 'Z'
  }

  /** `toLowerCase`: same length, every letter lowered, nothing else touched. */
  function ToLower(s: string): (r: string)
    ensures |r| == |s|
    ensures forall i :: 0 <= i < |s| ==> r[i] == LowerChar(s[i])
    ensures !HasUpper(r)
  {
    if |s| == 0 then "" else [LowerChar(s[0])] + ToLower(s[1..])
  }

  lemma {:induction false} ToLowerIdempotent(s: string)
    ensures ToLower(ToLower(s)) == ToLower(s)
  {
    LowerFixesLowercase(ToLower(s));
  }

  /** A string without upper-case letters is its own lower case, and only such a string is. */
  lemma {:induction false} LowerFixesLowercase(s: string)
    ensures ToLower(s) == s <==> !HasUpper(s)
  {
    if !HasUpper(s) {
      assert forall i :: 0 <= i < |s| ==> ToLower(s)[i] == s[i];
    }
  }

  // ---------------------------------------------------------------- search

  predicate StartsWith(s: string, p: string) {
    |p| <= |s| && s[..|p|] == p
  }

  /** `s.includes(sub)`. */
  predicate Includes(s: string, sub: string)
    decreases |s|
  {
    StartsWith(s, sub) || (|s| > 0 && Includes(s[1..], sub))
  }

  /** `includes` holds exactly when `sub` occurs at some position of `s`. */
  lemma {:induction false} IncludesAt(s: string, sub: string)
    ensures Includes(s, sub) <==> exists i :: 0 <= i <= |s| && StartsWith(s[i..], sub)
    decreases |s|
  {
    if |s| > 0 {
      IncludesAt(s[1..], sub);
      if Includes(s[1..], sub) {
        var i :| 0 <= i <= |s[1..]| && StartsWith(s[1..][i..], sub);
        assert s[1..][i..] == s[i + 1..];
        assert StartsWith(s[i + 1..], sub);
      }
      if StartsWith(s, sub) {
        assert s[0..] == s;
        assert StartsWith(s[0..], sub);
      }
      if exists i :: 0 <= i <= |s| && StartsWith(s[i..], sub) {
        var i :| 0 <= i <= |s| && StartsWith(s[i..], sub);
        if i > 0 {
          assert s[1..][i - 1..] == s[i..];
          assert StartsWith(s[1..][i - 1..], sub);
          assert Includes(s[1..], sub);
        } else {
          assert s[0..] == s;
          assert StartsWith(s, sub);
        }
      }
    } else {
      assert s[0..] == s;
    }
  }

  /** A string holds every character of any string it includes. */
  lemma {:induction false} IncludesChars(s: string, sub: string)
    requires Includes(s, sub)
    ensures forall j :: 0 <= j < |sub| ==> sub[j] in s
    decreases |s|
  {
    if StartsWith(s, sub) {
      forall j | 0 <= j < |sub| ensures sub[j] in s {
        assert s[..|sub|][j] == s[j];
      }
    } else {
      IncludesChars(s[1..], sub);
      forall j | 0 <= j < |sub| ensures sub[j] in s {
        var k :| 0 <= k < |s[1..]| && s[1..][k] == sub[j];
        assert s[k + 1] == sub[j];
      }
    }
  }

  /** A match cannot start in a stretch that lacks the first character of `sub`. */
  lemma {:induction false} IncludesSkip(s: string, sub: string, k: nat)
    requires 0 < |sub| && k <= |s| && sub[0] !in s[..k]
    requires Includes(s, sub)
    ensures Includes(s[k..], sub)
    decreases k
  {
    if k > 0 {
      assert s[0] in s[..k];
      assert !StartsWith(s, sub);
      assert s[1..][..k - 1] == s[1..k];
      assert sub[0] !in s[1..][..k - 1];
      IncludesSkip(s[1..], sub, k - 1);
      assert s[1..][k - 1..] == s[k..];
    }
  }

  /** `s.indexOf(c)`: the first position of `c`, or -1. */
  function IndexOf(s: string, c: char): (r: int)
    ensures -1 <= r < |s|
    ensures r == -1 <==> c !in s
    ensures r >= 0 ==> s[r] == c && c !in s[..r]
  {
    if |s| == 0 then -1
    else if s[0] == c then 0
    else
      var k := IndexOf(s[1..], c);
      assert k >= 0 ==> s[..k + 1] == [s[0]] + s[1..][..k];
      if k == -1 then -1 else k + 1
  }

  /** Counting over two joined texts adds the counts of the parts. */
  lemma {:induction false} OccurrencesConcat(a: string, b: string, x: char)
    ensures Occurrences(a + b, x) == Occurrences(a, x) + Occurrences(b, x)
    decreases |a|
  {
    if |a| == 0 {
      assert a + b == b;
    } else {
      assert (a + b)[1..] == a[1..] + b;
      OccurrencesConcat(a[1..], b, x);
    }
  }

  /** The text at position `k` splits into what precedes it, its character, and what follows. */
  lemma {:induction false} OccurrencesAround(s: string, k: nat, x: char)
    requires k < |s|
    ensures Occurrences(s, x) == Occurrences(s[..k], x) + (if s[k] == x then 1 else 0) + Occurrences(s[k + 1..], x)
  {
    assert s == s[..k] + ([s[k]] + s[k + 1..]);
    OccurrencesConcat(s[..k], [s[k]] + s[k + 1..], x);
    OccurrencesConcat([s[k]], s[k + 1..], x);
  }

  /**
   * `s.replace(c, '')` with a one-character string pattern: only the FIRST `c` is
   * removed; what precedes and what follows it are kept in order.
   */
  function RemoveFirst(s: string, c: char): (r: string)
    ensures c !in s ==> r == s
    ensures c in s ==> |r| == |s| - 1 && Occurrences(r, c) == Occurrences(s, c) - 1
    ensures c in s ==> r[..IndexOf(s, c)] == s[..IndexOf(s, c)] && r[IndexOf(s, c)..] == s[IndexOf(s, c) + 1..]
  {
    var k := IndexOf(s, c);
    if k < 0 then s
    else
      var r := s[..k] + s[k + 1..];
      OccurrencesAround(s, k, c);
      OccurrencesConcat(s[..k], s[k + 1..], c);
      assert r[..k] == s[..k] && r[k..] == s[k + 1..];
      r
  }

  /** Cutting out one position does not change the count of a character that is not there. */
  lemma {:induction false} CutOther(s: string, k: nat, d: char, r: string)
    requires k < |s| && s[k] != d && r == s[..k] + s[k + 1..]
    ensures Occurrences(r, d) == Occurrences(s, d)
  {
    OccurrencesAround(s, k, d);
    OccurrencesConcat(s[..k], s[k + 1..], d);
  }

  /** Removing one `c` leaves the count of every other character alone. */
  lemma {:induction false} RemoveFirstOther(s: string, c: char, d: char)
    requires c != d
    ensures Occurrences(RemoveFirst(s, c), d) == Occurrences(s, d)
  {
    var k := IndexOf(s, c);
    if k >= 0 {
      CutOther(s, k, d, RemoveFirst(s, c));
    }
  }

  // ---------------------------------------------------------------- parseInt

  /** The longest run of decimal digits at the start of `s`. */
  function DigitPrefix(s: string): (r: string)
    ensures |r| <= |s| && r == s[..|r|]
    ensures forall i :: 0 <= i < |r| ==> IsDigit(r[i])
    ensures |r| == |s| || !IsDigit(s[|r|])
  {
    if |s| > 0 && IsDigit(s[0]) then
      var r := [s[0]] + DigitPrefix(s[1..]);
      assert r == s[..|r|];
      r
    else ""
  }

  /** The value of a string of decimal digits, most significant first. */
  function DigitsValue(d: string): nat
    requires forall i :: 0 <= i < |d| ==> IsDigit(d[i])
  {
    if |d| == 0 then 0
    else
      var last := d[|d| - 1];
      assert IsDigit(last);
      DigitsValue(d[..|d| - 1]) * 10 + (last as int - '0' as int)
  }

  /** The text after optional leading white space and one optional sign character. */
  function Unsigned(s: string): string {
    var t := TrimStart(s);
    if |t| > 0 && (t[0] == '-' || t[0] == '+') then t[1..] else t
  }

  predicate IsNegative(s: string) {
    var t := TrimStart(s);
    |t| > 0 && t[0] == '-'
  }

  /**
   * `parseInt(s)` with the default radix: white space, an optional sign, then the
   * longest digit run; `NaN` (here `None`) when that run is empty. `-0` is `0`.
   */
  function ParseInt(s: string): (r: Option<int>)
    ensures r == None <==> |Unsigned(s)| == 0 || !IsDigit(Unsigned(s)[0])
    ensures r.Some? && !IsNegative(s) ==> r.value >= 0
  {
    var d := DigitPrefix(Unsigned(s));
    var v: int := DigitsValue(d);
    if |d| == 0 then None
    else if IsNegative(s) then Some(-v)
    else Some(v)
  }

  function DigitChar(n: nat): char
    requires n < 10
  {
    ('0' as int + n) as char
  }

  /** The shortest decimal spelling of `n`. */
  function Decimal(n: nat): (r: string)
    ensures |r| > 0
    ensures forall i :: 0 <= i < |r| ==> IsDigit(r[i])
  {
    if n < 10 then [DigitChar(n)] else Decimal(n / 10) + [DigitChar(n % 10)]
  }

  lemma {:induction false} DecimalValue(n: nat)
    ensures DigitsValue(Decimal(n)) == n
  {
    if n >= 10 {
      var r := Decimal(n);
      assert r[..|r| - 1] == Decimal(n / 10);
      DecimalValue(n / 10);
    }
  }

  lemma {:induction false} DigitPrefixStops(d: string, tail: string)
    requires forall i :: 0 <= i < |d| ==> IsDigit(d[i])
    requires tail == [] || !IsDigit(tail[0])
    ensures DigitPrefix(d + tail) == d
    decreases |d|
  {
    if |d| > 0 {
      assert (d + tail)[1..] == d[1..] + tail;
      DigitPrefixStops(d[1..], tail);
      assert d == [d[0]] + d[1..];
    } else {
      assert d + tail == tail;
    }
  }

  lemma {:induction false} UnsignedPlain(ws: string, d: string)
    requires IsBlank(ws)
    requires |d| > 0 && IsDigit(d[0])
    ensures Unsigned(ws + d) == d && !IsNegative(ws + d)
  {
    TrimStartPadded(ws, d);
    TrimStartKeeps(d);
    UnsignedDigits(ws + d, d);
  }

  lemma {:induction false} UnsignedDigits(s: string, t: string)
    requires TrimStart(s) == t && |t| > 0 && IsDigit(t[0])
    ensures Unsigned(s) == t && !IsNegative(s)
  {
    assert t[0] != '-' && t[0] != '+';
  }

  /** A string that starts with a character other than white space is its own `trimStart`. */
  lemma {:induction false} TrimStartKeeps(s: string)
    requires |s| > 0 && !IsSpace(s[0])
    ensures TrimStart(s) == s
  {
  }

  lemma {:induction false} UnsignedMinus(ws: string, d: string)
    requires IsBlank(ws)
    requires |d| > 0 && IsDigit(d[0])
    ensures Unsigned(ws + ("-" + d)) == d && IsNegative(ws + ("-" + d))
  {
    var body := "-" + d;
    TrimStartPadded(ws, body);
    assert body[0] == '-' && !IsSpace(body[0]);
    assert TrimStart(body) == body;
    assert body[1..] == d;
  }

  /** What `parseInt` reads from white space, digits and a non-digit tail ... */
  lemma {:induction false} ParseIntPlain(ws: string, d: string, tail: string)
    requires IsBlank(ws)
    requires |d| > 0 && forall i :: 0 <= i < |d| ==> IsDigit(d[i])
    requires tail == [] || !IsDigit(tail[0])
    ensures ParseInt(ws + (d + tail)) == Some(DigitsValue(d))
  {
    var u := d + tail;
    assert u[0] == d[0];
    UnsignedPlain(ws, u);
    ParseIntDigits(ws + u, d, tail);
  }

  /** ... and with a minus sign before the digits. */
  lemma {:induction false} ParseIntMinus(s: string, ws: string, d: string, tail: string, v: nat)
    requires IsBlank(ws)
    requires |d| > 0 && forall i :: 0 <= i < |d| ==> IsDigit(d[i])
    requires tail == [] || !IsDigit(tail[0])
    requires s == ws + ("-" + (d + tail)) && DigitsValue(d) == v
    ensures ParseInt(s) == Some(-(v as int))
  {
    var u := d + tail;
    assert u[0] == d[0];
    UnsignedMinus(ws, u);
    ParseIntDigits(s, d, tail);
  }

  lemma {:induction false} ParseIntDigits(s: string, d: string, tail: string)
    requires |d| > 0 && forall i :: 0 <= i < |d| ==> IsDigit(d[i])
    requires tail == [] || !IsDigit(tail[0])
    requires Unsigned(s) == d + tail
    ensures ParseInt(s) == Some(if IsNegative(s) then -(DigitsValue(d) as int) else DigitsValue(d))
  {
    DigitPrefixStops(d, tail);
    var p := DigitPrefix(Unsigned(s));
    assert p == d;
    assert |p| != 0;
  }

  /** `String(n)` for an integer `n`: a minus sign when negative, then the decimal digits. */
  function Spell(n: int): (r: string)
    ensures |r| > 0
  {
    if n < 0 then "-" + Decimal(-n) else Decimal(n)
  }

  /**
   * Round trip: `parseInt` reads back the spelling of any integer, after any white
   * space and before any text that does not start with a digit.
   */
  lemma {:induction false} ParseIntSpell(ws: string, n: int, tail: string)
    requires IsBlank(ws)
    requires tail == [] || !IsDigit(tail[0])
    ensures ParseInt(ws + (Spell(n) + tail)) == Some(n)
  {
    if n < 0 {
      ParseIntSpellNegative(ws, -n, tail);
    } else {
      ParseIntPlain(ws, Decimal(n), tail);
      DecimalValue(n);
    }
  }

  lemma {:induction false} ParseIntSpellNegative(ws: string, m: nat, tail: string)
    requires IsBlank(ws) && m > 0
    requires tail == [] || !IsDigit(tail[0])
    ensures ParseInt(ws + (Spell(-(m as int)) + tail)) == Some(-(m as int))
  {
    var d := Decimal(m);
    var s := ws + (Spell(-(m as int)) + tail);
    SpellNegative(ws, m, tail, s);
    DecimalValue(m);
    ParseIntMinus(s, ws, d, tail, m);
  }

  lemma {:induction false} SpellNegative(ws: string, m: nat, tail: string, s: string)
    requires m > 0 && s == ws + (Spell(-(m as int)) + tail)
    ensures s == ws + ("-" + (Decimal(m) + tail))
  {
    assert Spell(-(m as int)) == "-" + Decimal(m);
  }
}
