/** Wrappers and text helpers shared by the models. */
module Common {

  datatype Option<+T> = None | Some(value: T)

  datatype Result<+T, +E> = Ok(value: T) | Err(error: E)

  function Min(a: int, b: int): int {
    if a <= b then a else b
  }

  function Max(a: int, b: int): int {
    if a <= b then b else a
  }

  predicate Distinct<T(==)>(s: seq<T>) {
    forall i, j :: 0 <= i < j < |s| ==> s[i] != s[j]
  }

  function Mapped<T, U>(s: seq<T>, f: T -> U): (r: seq<U>)
    ensures |r| == |s| && forall i :: 0 <= i < |s| ==> r[i] == f(s[i])
  {
    seq(|s|, i requires 0 <= i < |s| => f(s[i]))
  }

  /** The first `limit` elements; a limit of zero or less keeps nothing. */
  function Take<T>(s: seq<T>, limit: int): seq<T> {
    s[..Max(0, Min(limit, |s|))]
  }

  /** Python's `needle in hay` on strings. */
  predicate Contains(hay: string, needle: string) {
    exists i :: 0 <= i <= |hay| && needle <= hay[i..]
  }

  predicate EndsWith(s: string, suffix: string) {
    |suffix| <= |s| && s[|s| - |suffix|..] == suffix
  }

  /** Characters `str.strip` removes in Python. */
  predicate IsSpace(c: char) {
    || '\U{0009}' <= c <= '\U{000D}'
    || '\U{001C}' <= c <= '\U{0020}'
    || c == '\U{0085}' || c == '\U{00A0}' || c == '\U{1680}'
    || '\U{2000}' <= c <= '\U{200A}'
    || c == '\U{2028}' || c == '\U{2029}' || c == '\U{202F}'
    || c == '\U{205F}' || c == '\U{3000}'
  }

  function RStrip(s: string): (r: string)
    ensures r <= s
    ensures r != [] ==> !IsSpace(r[|r| - 1])
  {
    if s == [] then []
    else if IsSpace(s[|s| - 1]) then RStrip(s[..|s| - 1])
    else s
  }

  function LStrip(s: string): (r: string)
    ensures |r| <= |s| && r == s[|s| - |r|..]
    ensures r != [] ==> !IsSpace(r[0])
  {
    if s == [] then []
    else if IsSpace(s[0]) then LStrip(s[1..])
    else s
  }

  function Strip(s: string): (r: string)
    ensures |r| <= |s|
  {
    RStrip(LStrip(s))
  }

  /** Text with no blank at either end is left alone by `strip`. */
  lemma StripOfTrimmed(s: string)
    requires s != [] && !IsSpace(s[0]) && !IsSpace(s[|s| - 1])
    ensures Strip(s) == s
  {
  }

  predicate AllSpace(s: string) {
    forall i :: 0 <= i < |s| ==> IsSpace(s[i])
  }

  lemma {:induction false} RStripDropsBlanks(s: string)
    ensures forall i :: |RStrip(s)| <= i < |s| ==> IsSpace(s[i])
  {
    if s != [] && IsSpace(s[|s| - 1]) {
      var init := s[..|s| - 1];
      RStripDropsBlanks(init);
      assert forall i :: 0 <= i < |init| ==> init[i] == s[i];
    }
  }

  lemma {:induction false} LStripExact(s: string)
    ensures AllSpace(s[..|s| - |LStrip(s)|])
  {
    if s != [] && IsSpace(s[0]) {
      LStripExact(s[1..]);
      var n := |s| - |LStrip(s)|;
      assert s[..n] == [s[0]] + s[1..][..n - 1];
    }
  }

  /** `strip` cuts blanks off both ends, all of them and nothing else. */
  lemma StripExact(s: string)
    ensures exists i, j :: 0 <= i <= j <= |s| && Strip(s) == s[i..j] && AllSpace(s[..i]) && AllSpace(s[j..])
    ensures Strip(s) != "" ==> !IsSpace(Strip(s)[0]) && !IsSpace(Strip(s)[|Strip(s)| - 1])
  {
    var l, r := LStrip(s), Strip(s);
    var i, j := |s| - |l|, |s| - |l| + |r|;
    LStripExact(s);
    RStripDropsBlanks(l);
    assert r == s[i..j] && s[j..] == l[|r|..];
    if r != "" {
      assert r[0] == l[0];
    }
  }

  /** The texts that are not blank, as they are. */
  function Visible(texts: seq<string>): seq<string> {
    if texts == [] then [] else (if Strip(texts[0]) != "" then [texts[0]] else []) + Visible(texts[1..])
  }

  /** Decimal digits of a natural number. */
  function Decimal(n: nat): (r: string)
    ensures |r| >= 1
    ensures forall i :: 0 <= i < |r| ==> '0' <= r[i] <= '9'
  {
    var digit := ['0' + (n % 10) as char];
    if n < 10 then digit else Decimal(n / 10) + digit
  }

  function ValueOfDigits(digits: string): nat
    requires forall i :: 0 <= i < |digits| ==> '0' <= digits[i] <= '9'
  {
    if digits == [] then 0
    else 10 * ValueOfDigits(digits[..|digits| - 1]) + (digits[|digits| - 1] as int - '0' as int)
  }

  /** The digits stand for the number, with no leading zero. */
  lemma {:induction false} DecimalRoundTrip(n: nat)
    ensures ValueOfDigits(Decimal(n)) == n
    ensures n > 0 ==> Decimal(n)[0] != '0'
  {
    if n >= 10 {
      DecimalRoundTrip(n / 10);
      assert Decimal(n)[..|Decimal(n)| - 1] == Decimal(n / 10);
    } else {
      assert Decimal(n)[..0] == [];
    }
  }

  /** Where a text first occurs; past the end when it does not. */
  function FirstAt(values: seq<string>, x: string): nat {
    if values == [] || values[0] == x then 0 else 1 + FirstAt(values[1..], x)
  }

  /** Listed in the order in which the texts first occur. */
  predicate InFirstOrder(listed: seq<string>, values: seq<string>) {
    forall i, j :: 0 <= i < j < |listed| ==> FirstAt(values, listed[i]) < FirstAt(values, listed[j])
  }

  lemma {:induction false} FirstAtSnoc(init: seq<string>, last: string, x: string)
    ensures x in init ==> FirstAt(init + [last], x) == FirstAt(init, x) < |init|
    ensures x !in init && x == last ==> FirstAt(init + [last], x) == |init|
  {
    if init == [] {
      assert init + [last] == [last];
    } else {
      assert (init + [last])[1..] == init[1..] + [last];
      assert init == [init[0]] + init[1..];
      FirstAtSnoc(init[1..], last, x);
    }
  }

  /** One more text, listed last if it is new, keeps the order. */
  lemma StillInOrder(listed: seq<string>, init: seq<string>, last: string)
    requires InFirstOrder(listed, init) && forall x :: x in listed ==> x in init
    ensures InFirstOrder(listed, init + [last])
    ensures last !in init ==> InFirstOrder(listed + [last], init + [last])
  {
    forall i | 0 <= i < |listed| ensures FirstAt(init + [last], listed[i]) == FirstAt(init, listed[i]) < |init| {
      assert listed[i] in listed;
      FirstAtSnoc(init, last, listed[i]);
    }
    FirstAtSnoc(init, last, last);
  }

  function Power10(k: nat): nat {
    if k == 0 then 1 else 10 * Power10(k - 1)
  }

  lemma {:induction false} DecimalLength(n: nat, k: nat)
    requires n < Power10(k + 1)
    ensures |Decimal(n)| <= k + 1
  {
    if k == 0 {
      assert Power10(1) == 10 * Power10(0);
    } else if n >= 10 {
      DecimalLength(n / 10, k - 1);
    }
  }

  function Join(parts: seq<string>, separator: string): string {
    if parts == [] then ""
    else if |parts| == 1 then parts[0]
    else parts[0] + separator + Join(parts[1..], separator)
  }
}

/** Code-point order on strings, and the ascending listing of a finite set. */
module StringOrder {

  predicate Leq(a: string, b: string) {
    || a == []
    || (b != [] && (a[0] < b[0] || (a[0] == b[0] && Leq(a[1..], b[1..]))))
  }

  lemma {:induction false} Total(a: string, b: string)
    ensures Leq(a, b) || Leq(b, a)
  {
    if a != [] && b != [] {
      Total(a[1..], b[1..]);
    }
  }

  lemma {:induction false} Antisymmetric(a: string, b: string)
    requires Leq(a, b) && Leq(b, a)
    ensures a == b
  {
    if a != [] && b != [] {
      Antisymmetric(a[1..], b[1..]);
      assert a == [a[0]] + a[1..] && b == [b[0]] + b[1..];
    }
  }

  lemma {:induction false} Transitive(a: string, b: string, c: string)
    requires Leq(a, b) && Leq(b, c)
    ensures Leq(a, c)
  {
    if a != [] && a[0] == b[0] == c[0] {
      Transitive(a[1..], b[1..], c[1..]);
    }
  }

  function Larger(a: string, b: string): (r: string)
    ensures r == a || r == b
    ensures Leq(a, r) && Leq(b, r)
  {
    Total(a, b);
    Total(a, a);
    Total(b, b);
    if Leq(a, b) then b else a
  }

  predicate Ascending(s: seq<string>) {
    forall i, j :: 0 <= i < j < |s| ==> s[i] != s[j] && Leq(s[i], s[j])
  }

  ghost predicate IsLeast(m: string, s: set<string>) {
    m in s && forall y :: y in s ==> Leq(m, y)
  }

  lemma {:induction false} LeastExists(s: set<string>)
    requires s != {}
    ensures exists m :: IsLeast(m, s)
    decreases |s|
  {
    var x :| x in s;
    Total(x, x);
    if s == {x} {
      assert IsLeast(x, s);
    } else {
      var rest := s - {x};
      LeastExists(rest);
      var m :| IsLeast(m, rest);
      Total(x, m);
      var least := if Leq(x, m) then x else m;
      forall y | y in s ensures Leq(least, y) {
        if y != x && least == x {
          Transitive(x, m, y);
        }
      }
      assert IsLeast(least, s);
    }
  }

  lemma LeastUnique(s: set<string>)
    ensures forall m, n :: IsLeast(m, s) && IsLeast(n, s) ==> m == n
  {
    forall m, n | IsLeast(m, s) && IsLeast(n, s) ensures m == n {
      Antisymmetric(m, n);
    }
  }

  function Least(s: set<string>): (m: string)
    requires s != {}
    ensures IsLeast(m, s)
  {
    LeastExists(s);
    LeastUnique(s);
    assert forall m :: (m in s && forall y :: y in s ==> Leq(m, y)) <==> IsLeast(m, s);
    var m :| m in s && forall y :: y in s ==> Leq(m, y);
    m
  }

  /** `sorted(s)`: every member once, in ascending order. */
  function Sorted(s: set<string>): (r: seq<string>)
    ensures Ascending(r)
    ensures forall x :: x in r <==> x in s
    ensures |r| == |s|
    decreases |s|
  {
    if s == {} then []
    else
      var m := Least(s);
      var rest := Sorted(s - {m});
      assert forall i :: 0 <= i < |rest| ==> rest[i] in rest && rest[i] in s && rest[i] != m;
      [m] + rest
  }
}
