/**
 The two searches for a name nobody has yet: the slug of a purchased tenant, and the key of a
 cloned specialist, which is cut to 64 characters.
 */
module FreshNames {
  import opened Options

  function Digit(d: nat): char
    requires d < 10
  {
    "0123456789"[d]
  }

  /** `${n}` for a whole number. */
  function Digits(n: nat): (s: string)
    ensures |s| > 0
  {
    if n < 10 then [Digit(n)] else Digits(n / 10) + [Digit(n % 10)]
  }

  lemma {:induction false} DigitsInjective(m: nat, n: nat)
    requires Digits(m) == Digits(n)
    ensures m == n
  {
    var s, t := Digits(m), Digits(n);
    assert s[|s| - 1] == Digit(m % 10) && t[|t| - 1] == Digit(n % 10);
    if m >= 10 && n >= 10 {
      assert s[..|s| - 1] == Digits(m / 10) && t[..|t| - 1] == Digits(n / 10);
      DigitsInjective(m / 10, n / 10);
    }
  }

  /** What a decimal numeral says. */
  function Value(s: string): int {
    if s == "" then 0 else 10 * Value(s[..|s| - 1]) + (s[|s| - 1] as int - '0' as int)
  }

  /** The numeral of a number says that number. */
  lemma {:induction false} DigitsSay(n: nat)
    ensures Value(Digits(n)) == n
    ensures n > 0 ==> Digits(n)[0] != '0'
    ensures forall i :: 0 <= i < |Digits(n)| ==> '0' <= Digits(n)[i] <= '9'
  {
    if n < 10 {
      assert Digits(n)[..0] == "" && Digits(n)[0] == Digit(n);
    } else {
      DigitsSay(n / 10);
      assert Digits(n)[..|Digits(n)| - 1] == Digits(n / 10);
    }
  }

  /** A name kept as it is on the first try, and numbered from the second on. */
  function Numbered(base: string, separator: string, k: nat): string
    requires k >= 1
  {
    if k == 1 then base else base + separator + Digits(k)
  }

  lemma NumberedInjective(base: string, separator: string, j: nat, k: nat)
    requires 1 <= j && 1 <= k
    requires Numbered(base, separator, j) == Numbered(base, separator, k)
    ensures j == k
  {
    var stem := base + separator;
    if j > 1 && k > 1 {
      assert Numbered(base, separator, j)[|stem|..] == Digits(j);
      assert Numbered(base, separator, k)[|stem|..] == Digits(k);
      DigitsInjective(j, k);
    }
  }

  /** The taken names the search has yet to try. */
  ghost function Ahead(base: string, separator: string, taken: set<string>, k: nat): set<string>
    requires k >= 1
  {
    set s | s in taken && exists j: nat :: k <= j && s == Numbered(base, separator, j)
  }

  lemma OneFewerAhead(base: string, separator: string, taken: set<string>, k: nat)
    requires k >= 1 && Numbered(base, separator, k) in taken
    ensures Ahead(base, separator, taken, k + 1) < Ahead(base, separator, taken, k)
  {
    var name := Numbered(base, separator, k);
    assert name in Ahead(base, separator, taken, k);
    if j: nat :| k + 1 <= j && name == Numbered(base, separator, j) {
      NumberedInjective(base, separator, j, k);
      assert false;
    }
  }

  /** The least number from `k` on whose name is free. */
  ghost function LeastFree(base: string, separator: string, taken: set<string>, k: nat): (n: nat)
    requires k >= 1
    ensures k <= n && Numbered(base, separator, n) !in taken
    ensures forall j :: k <= j < n ==> Numbered(base, separator, j) in taken
    decreases Ahead(base, separator, taken, k)
  {
    if Numbered(base, separator, k) !in taken then k
    else
      OneFewerAhead(base, separator, taken, k);
      LeastFree(base, separator, taken, k + 1)
  }

  /** The slug a purchased tenant gets. */
  ghost function FreeSlug(wanted: string, taken: set<string>): (slug: string)
    ensures slug !in taken
    ensures wanted !in taken ==> slug == wanted
  {
    Numbered(wanted, "-", LeastFree(wanted, "-", taken, 1))
  }

  lemma {:induction false} TakenBelow(base: string, separator: string, taken: set<string>, n: nat)
    requires n >= 1
    requires forall j :: 1 <= j < n ==> Numbered(base, separator, j) in taken
    ensures n <= |taken| + 1
    decreases n
  {
    if n > 1 {
      var last := Numbered(base, separator, n - 1);
      forall j | 1 <= j < n - 1
        ensures Numbered(base, separator, j) in taken - {last}
      {
        if Numbered(base, separator, j) == last {
          NumberedInjective(base, separator, j, n - 1);
        }
      }
      TakenBelow(base, separator, taken - {last}, n - 1);
    }
  }

  /** The search for a tenant slug. It fails at most once per existing slug. */
  method FindSlug(wanted: string, taken: set<string>) returns (slug: string, tries: nat)
    ensures slug == FreeSlug(wanted, taken)
    ensures 1 <= tries <= |taken| + 1 && slug == Numbered(wanted, "-", tries)
    ensures slug !in taken && forall j :: 1 <= j < tries ==> Numbered(wanted, "-", j) in taken
    ensures if tries == 1 then slug == wanted
            else wanted in taken && wanted + "-" <= slug && Value(slug[|wanted| + 1..]) == tries
    ensures forall j :: 2 <= j < tries ==> wanted + "-" + Digits(j) in taken
  {
    slug := wanted;
    var n := 2;
    while slug in taken
      invariant n >= 2 && slug == Numbered(wanted, "-", n - 1)
      invariant forall j :: 1 <= j < n - 1 ==> Numbered(wanted, "-", j) in taken
      decreases Ahead(wanted, "-", taken, n - 1)
    {
      OneFewerAhead(wanted, "-", taken, n - 1);
      slug := wanted + "-" + Digits(n);
      n := n + 1;
    }
    tries := n - 1;
    TakenBelow(wanted, "-", taken, tries);
    DigitsSay(tries);
    assert tries > 1 ==> slug[|wanted| + 1..] == Digits(tries);
    assert forall j :: 2 <= j < tries ==> Numbered(wanted, "-", j) == wanted + "-" + Digits(j);
    assert LeastFree(wanted, "-", taken, 1) == tries;
  }

  // ---------------------------------------------------------------- names that are cut

  const LIMIT := 64

  function Cut(s: string): string {
    if |s| <= LIMIT then s else s[..LIMIT]
  }

  /** The k-th key `clone` tries. */
  function CloneKey(key: string, k: nat): string
    requires k >= 1
  {
    Cut(Numbered(key + "_copy", "", k))
  }

  /** No key the search can reach is free: the original's loop runs forever. */
  ghost predicate Hangs(key: string, taken: set<string>) {
    forall k: nat :: k >= 1 ==> CloneKey(key, k) in taken
  }

  /** How many digits survive the cut. */
  function Room(key: string): int {
    LIMIT - |key + "_copy"|
  }

  function Power(n: nat): nat {
    if n == 0 then 1 else 10 * Power(n - 1)
  }

  /** Every key the search can reach is met by this number. */
  function Horizon(key: string): nat {
    if Room(key) <= 0 then 1 else if Room(key) == 1 then 10 else Power(Room(key))
  }

  lemma {:induction false} DigitsBelowPower(n: nat, r: nat)
    requires r >= 1
    ensures |Digits(n)| <= r <==> n < Power(r)
  {
    if n >= 10 {
      assert |Digits(n)| == |Digits(n / 10)| + 1;
      if r > 1 {
        DigitsBelowPower(n / 10, r - 1);
      } else {
        assert Power(1) == 10 * Power(0);
      }
    } else {
      PowerGrows(r);
    }
  }

  lemma {:induction false} PowerGrows(r: nat)
    requires r >= 1
    ensures Power(r) >= 10
  {
    if r > 1 {
      PowerGrows(r - 1);
    }
  }

  /** Cutting a numeral leaves a numeral. */
  lemma {:induction false} CutDigits(n: nat, r: nat) returns (m: nat)
    requires n >= 1 && 1 <= r <= |Digits(n)|
    ensures m >= 1 && Digits(n)[..r] == Digits(m)
  {
    if r == |Digits(n)| {
      assert Digits(n)[..r] == Digits(n);
      return n;
    }
    assert n >= 10;
    assert Digits(n)[..|Digits(n)| - 1] == Digits(n / 10);
    m := CutDigits(n / 10, r);
    assert Digits(n)[..r] == Digits(n / 10)[..r];
  }

  /** Whatever number a key is tried with, the same key is tried by the horizon. */
  lemma MetByHorizon(key: string, k: nat) returns (j: nat)
    requires k >= 1
    ensures 1 <= j <= Horizon(key) && CloneKey(key, j) == CloneKey(key, k)
  {
    var stem := key + "_copy";
    if Room(key) <= 0 {
      assert Numbered(stem, "", k)[..LIMIT] == stem[..LIMIT] == Numbered(stem, "", 1)[..LIMIT];
      return 1;
    }
    PowerGrows(Room(key));
    if k == 1 {
      return 1;
    }
    DigitsBelowPower(k, Room(key));
    if |Digits(k)| <= Room(key) {
      return k;
    }
    j := CutDigits(k, Room(key));
    assert CloneKey(key, k) == stem + Digits(j);
    DigitsBelowPower(j, Room(key));
    if j == 1 {
      assert Room(key) == 1;
      j := 10;
      assert Digits(10) == "10" && Digits(1) == "1";
      assert CloneKey(key, 10) == (stem + "10")[..LIMIT] == stem + "1";
    }
  }

  /** Exactly when `clone` never returns: every key it can try up to the horizon is taken. */
  lemma HangsExactly(key: string, taken: set<string>)
    ensures Hangs(key, taken) <==> forall k: nat :: 1 <= k <= Horizon(key) ==> CloneKey(key, k) in taken
  {
    if forall k: nat :: 1 <= k <= Horizon(key) ==> CloneKey(key, k) in taken {
      forall k: nat | k >= 1
        ensures CloneKey(key, k) in taken
      {
        var j := MetByHorizon(key, k);
      }
    }
  }

  /** A specialist whose own key has 64 characters can never be cloned. */
  lemma FullLengthKeyHangs(key: string, taken: set<string>)
    requires |key| == 64 && key in taken
    ensures Hangs(key, taken)
  {
    forall k: nat | k >= 1
      ensures CloneKey(key, k) == key
    {
      assert Numbered(key + "_copy", "", k)[..LIMIT] == key;
    }
  }

  /** When the cut leaves room for the digits of one more than the number of taken keys, the search
      ends within that many tries. */
  lemma ShortKeyIsFound(key: string, taken: set<string>)
    requires Room(key) >= |Digits(|taken| + 1)|
    ensures exists k: nat :: 1 <= k <= |taken| + 1 && CloneKey(key, k) !in taken
  {
    var stem := key + "_copy";
    var k := LeastFree(stem, "", taken, 1);
    TakenBelow(stem, "", taken, k);
    DigitsBelowPower(|taken| + 1, Room(key));
    DigitsBelowPower(k, Room(key));
    assert CloneKey(key, k) == Numbered(stem, "", k);
  }

  lemma CloneKeyNumbered(key: string, n: nat)
    requires n >= 2
    ensures CloneKey(key, n) == Cut(key + "_copy" + Digits(n))
  {
    assert key + "_copy" + "" + Digits(n) == key + "_copy" + Digits(n);
  }

  /** The candidates up to `n` are all taken. */
  ghost predicate TakenUpTo(key: string, taken: set<string>, n: nat) {
    forall k: nat :: 1 <= k <= n ==> CloneKey(key, k) in taken
  }

  /** The search of `clone`. Where the original goes on for ever this one stops at the horizon, and says so
      by returning nothing. */
  method FindCloneKey(key: string, taken: set<string>) returns (candidate: Option<string>, tries: nat)
    ensures candidate.None? <==> Hangs(key, taken)
    ensures candidate.Some? ==> tries >= 1 && candidate == Some(CloneKey(key, tries)) && candidate.value !in taken
    ensures candidate.Some? ==> TakenUpTo(key, taken, tries - 1)
    ensures candidate.Some? ==> && |candidate.value| <= 64
                                && candidate.value <= key + "_copy" + (if tries == 1 then "" else Digits(tries))
  {
    var stem := key + "_copy";
    var name := Cut(stem);
    var n := 2;
    HorizonIsPositive(key);
    while name in taken && n <= Horizon(key)
      invariant 2 <= n <= Horizon(key) + 1 && name == CloneKey(key, n - 1)
      invariant TakenUpTo(key, taken, n - 2)
      decreases Horizon(key) - n
    {
      CloneKeyNumbered(key, n);
      name := Cut(stem + Digits(n));
      n := n + 1;
    }
    if name in taken {
      HangsExactly(key, taken);
      return None, n - 1;
    }
    return Some(name), n - 1;
  }

  lemma HorizonIsPositive(key: string)
    ensures Horizon(key) >= 1
  {
    if Room(key) > 1 {
      PowerGrows(Room(key));
    }
  }
}
