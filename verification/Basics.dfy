/** Vocabulary shared by every module: results, Go's 64-bit arithmetic, durations in
    nanoseconds, and the string helpers the source takes from its standard library. */
module Basics {

  datatype Option<+T> = None | Some(value: T)

  datatype Result<+T, +E> = Ok(value: T) | Err(error: E)

  // Times are nanoseconds since the Unix epoch and durations are nanoseconds.
  const SECOND := 1_000_000_000
  const MINUTE := 60 * SECOND

  // The zero time.Time: 1 January of year 1, UTC.
  const ZERO_TIME := -62_135_596_800 * SECOND

  const MIN_INT64 := -0x8000_0000_0000_0000
  const MAX_INT64 := 0x7FFF_FFFF_FFFF_FFFF

  type Int64 = x: int | MIN_INT64 <= x <= MAX_INT64

  // Whole seconds that fit in an int64 number of nanoseconds.
  const MAX_SECONDS := 9_223_372_036

  /** The int64 a Go multiplication or addition leaves when the exact value is x. */
  function Wrap64(x: int): (r: Int64)
    ensures MIN_INT64 <= x <= MAX_INT64 ==> r == x
    ensures exists k :: r == x + k * 0x1_0000_0000_0000_0000
  {
    var k := -((x - MIN_INT64) / 0x1_0000_0000_0000_0000);
    assert (x - MIN_INT64) % 0x1_0000_0000_0000_0000 == x - MIN_INT64 + k * 0x1_0000_0000_0000_0000;
    x + k * 0x1_0000_0000_0000_0000
  }

  lemma WrapIsResidue(x: int)
    ensures var r := x % 0x1_0000_0000_0000_0000;
            Wrap64(x) == if r <= MAX_INT64 then r else r - 0x1_0000_0000_0000_0000
  {
  }

  lemma ResidueOfWrap(x: int)
    ensures Wrap64(x) % 0x1_0000_0000_0000_0000 == x % 0x1_0000_0000_0000_0000
  {
    WrapIsResidue(x);
  }

  function Min(x: int, y: int): int {
    if x <= y then x else y
  }

  function Max(x: int, y: int): int {
    if x <= y then y else x
  }

  /** White space as strings.TrimSpace sees it, for characters below U+0100. */
  predicate IsSpace(c: char) {
    c in " \t\n\r" || c == '\U{0B}' || c == '\U{0C}' || c == '\U{85}' || c == '\U{A0}'
  }

  function TrimLeft(s: string): (r: string)
    ensures r == "" || !IsSpace(r[0])
    ensures |r| <= |s|
  {
    if s != "" && IsSpace(s[0]) then TrimLeft(s[1..]) else s
  }

  function TrimRight(s: string): (r: string)
    ensures r == "" || !IsSpace(r[|r| - 1])
    ensures r <= s
  {
    if s != "" && IsSpace(s[|s| - 1]) then TrimRight(s[..|s| - 1]) else s
  }

  function Trim(s: string): string {
    TrimRight(TrimLeft(s))
  }

  /** strings.TrimSpace(s) == "". */
  predicate Blank(s: string) {
    forall i :: 0 <= i < |s| ==> IsSpace(s[i])
  }

  lemma {:induction false} TrimLeftKeepsBlankness(s: string)
    ensures TrimLeft(s) == "" <==> Blank(s)
  {
    if s != "" && IsSpace(s[0]) {
      TrimLeftKeepsBlankness(s[1..]);
      assert s == [s[0]] + s[1..];
    }
  }

  lemma BlankMeansTrimsToNothing(s: string)
    ensures Blank(s) <==> Trim(s) == ""
  {
    TrimLeftKeepsBlankness(s);
    var l := TrimLeft(s);
    if l != "" {
      TrimRightKeepsFront(l);
    }
  }

  lemma {:induction false} TrimRightKeepsFront(s: string)
    requires s != "" && !IsSpace(s[0])
    ensures TrimRight(s) != ""
  {
    if |s| > 1 && IsSpace(s[|s| - 1]) {
      TrimRightKeepsFront(s[..|s| - 1]);
    }
  }

  /** No white space at the ends. */
  predicate Tidy(s: string) {
    s != "" ==> !IsSpace(s[0]) && !IsSpace(s[|s| - 1])
  }

  lemma TrimLeavesTidyAlone(s: string)
    requires Tidy(s)
    ensures Trim(s) == s
  {
  }

  /** t is what lies between the white space at the ends of s. */
  ghost predicate TrimsTo(s: string, t: string) {
    Tidy(t) && exists i, j :: 0 <= i <= j <= |s| && t == s[i..j] && Blank(s[..i]) && Blank(s[j..])
  }

  lemma {:induction false} TrimLeftDropsSpace(s: string) returns (i: nat)
    ensures i <= |s| && TrimLeft(s) == s[i..] && Blank(s[..i])
  {
    if s != "" && IsSpace(s[0]) {
      var k := TrimLeftDropsSpace(s[1..]);
      i := k + 1;
      assert s[..i] == [s[0]] + s[1..][..k];
    } else {
      i := 0;
    }
  }

  lemma {:induction false} TrimRightDropsSpace(s: string)
    ensures Blank(s[|TrimRight(s)|..])
  {
    if s != "" && IsSpace(s[|s| - 1]) {
      var front := s[..|s| - 1];
      TrimRightDropsSpace(front);
      assert s[|TrimRight(front)|..] == front[|TrimRight(front)|..] + [s[|s| - 1]];
    }
  }

  lemma TrimRightKeepsStart(s: string)
    ensures TrimRight(s) != "" ==> TrimRight(s)[0] == s[0]
  {
    assert TrimRight(s) <= s;
  }

  /** strings.TrimSpace takes away the white space at the ends and nothing else. */
  lemma TrimIsExact(s: string, t: string)
    ensures Trim(s) == t <==> TrimsTo(s, t)
  {
    var i := TrimLeftDropsSpace(s);
    var l := TrimLeft(s);
    TrimRightDropsSpace(l);
    TrimRightKeepsStart(l);
    var j := i + |Trim(s)|;
    assert Trim(s) == s[i..j] && s[j..] == l[|TrimRight(l)|..];
    assert TrimsTo(s, Trim(s));
    if TrimsTo(s, t) {
      TrimIsUnique(s, t, Trim(s));
    }
  }

  lemma TrimIsUnique(s: string, t: string, u: string)
    requires TrimsTo(s, t) && TrimsTo(s, u)
    ensures t == u
  {
    var i, j :| 0 <= i <= j <= |s| && t == s[i..j] && Blank(s[..i]) && Blank(s[j..]);
    var k, l :| 0 <= k <= l <= |s| && u == s[k..l] && Blank(s[..k]) && Blank(s[l..]);
    InnerIsInside(s, i, j, k, l);
    InnerIsInside(s, k, l, i, j);
  }

  /** A stretch of s with no white space at its ends lies inside any that leaves out only white space. */
  lemma InnerIsInside(s: string, i: nat, j: nat, k: nat, l: nat)
    requires i <= j <= |s| && k <= l <= |s| && Tidy(s[i..j]) && Blank(s[..k]) && Blank(s[l..])
    ensures i < j ==> k <= i && j <= l
  {
    if i < j {
      assert s[i..j][0] == s[i] && s[i..j][j - i - 1] == s[j - 1];
      InnerStaysInside(s, i, k, l);
      InnerStaysInside(s, j - 1, k, l);
    }
  }

  lemma InnerStaysInside(s: string, at: nat, k: nat, l: nat)
    requires k <= l <= |s| && at < |s| && Blank(s[..k]) && Blank(s[l..]) && !IsSpace(s[at])
    ensures k <= at < l
  {
  }

  function ToLower(s: string): (r: string)
    ensures |r| == |s|
    ensures forall i :: 0 <= i < |s| ==> r[i] == if 'A' <= s[i] <= 'Z' then s[i] + 32 as char else s[i]
  {
    seq(|s|, i requires 0 <= i < |s| => if 'A' <= s[i] <= 'Z' then s[i] + 32 as char else s[i])
  }

  lemma LowerKeepsBlankness(s: string)
    ensures Blank(ToLower(s)) <==> Blank(s)
    ensures Tidy(ToLower(s)) <==> Tidy(s)
  {
  }

  lemma LowerOfSlice(s: string, i: nat, j: nat)
    requires i <= j <= |s|
    ensures ToLower(s[i..j]) == ToLower(s)[i..j]
  {
  }

  lemma SliceTrims(s: string, i: nat, j: nat)
    requires i <= j <= |s| && Tidy(s[i..j]) && Blank(s[..i]) && Blank(s[j..])
    ensures TrimsTo(s, s[i..j])
  {
  }

  lemma LowerKeepsTrimming(s: string, t: string)
    requires TrimsTo(s, t)
    ensures TrimsTo(ToLower(s), ToLower(t))
  {
    var i, j :| 0 <= i <= j <= |s| && t == s[i..j] && Blank(s[..i]) && Blank(s[j..]);
    LowerSlicesTrim(s, i, j);
  }

  lemma LowerSlicesTrim(s: string, i: nat, j: nat)
    requires i <= j <= |s| && Tidy(s[i..j]) && Blank(s[..i]) && Blank(s[j..])
    ensures TrimsTo(ToLower(s), ToLower(s[i..j]))
  {
    var n := |s|;
    assert s[..i] == s[0..i] && s[j..] == s[j..n];
    LowerOfSlice(s, 0, i);
    LowerOfSlice(s, i, j);
    LowerOfSlice(s, j, n);
    LowerKeepsBlankness(s[0..i]);
    LowerKeepsBlankness(s[i..j]);
    LowerKeepsBlankness(s[j..n]);
    SliceTrims(ToLower(s), i, j);
  }

  function Itoa(n: nat): (r: string)
    ensures r != ""
  {
    if n < 10 then [("0123456789")[n]] else Itoa(n / 10) + [("0123456789")[n % 10]]
  }

  predicate AllDigits(s: string) {
    forall i :: 0 <= i < |s| ==> '0' <= s[i] <= '9'
  }

  /** The number that decimal digits stand for. */
  function Atoi(s: string): nat
    requires AllDigits(s)
  {
    if s == "" then 0 else 10 * Atoi(s[..|s| - 1]) + (s[|s| - 1] as int - '0' as int)
  }

  lemma DigitIsExact(d: nat)
    requires d < 10
    ensures ("0123456789")[d] as int == '0' as int + d
  {
  }

  lemma {:induction false} ItoaIsExact(n: nat)
    ensures AllDigits(Itoa(n)) && Atoi(Itoa(n)) == n
  {
    DigitIsExact(n % 10);
    var s := Itoa(n);
    if n < 10 {
      assert Atoi(s[..0]) == 0;
    } else {
      ItoaIsExact(n / 10);
      assert s[..|s| - 1] == Itoa(n / 10);
    }
  }
}
