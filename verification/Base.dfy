/** Optional results. */
module Options {
  datatype Option<+T> = None | Some(value: T)
}

/** Cardinalities of sets of positions. */
module Cardinality {
  lemma {:induction false} SubsetSize<T>(a: set<T>, b: set<T>)
    requires a <= b
    ensures |a| <= |b|
    decreases |a|
  {
    if a != {} {
      var x :| x in a;
      SubsetSize(a - {x}, b - {x});
    }
  }

  lemma {:induction false} BelowSize(a: set<nat>, n: nat)
    requires forall i :: i in a ==> i < n
    ensures |a| <= n
    decreases n
  {
    if n == 0 {
      assert a == {};
    } else {
      BelowSize(a - {n - 1}, n - 1);
    }
  }

  /** Two sets of positions below n, together larger than n, share a member. */
  lemma {:induction false} CommonMember(a: set<nat>, b: set<nat>, n: nat) returns (i: nat)
    requires forall i :: i in a || i in b ==> i < n
    requires |a| + |b| > n
    ensures i in a && i in b
  {
    if a * b == {} {
      assert |a + b| == |a| + |b|;
      BelowSize(a + b, n);
      assert false;
    }
    i :| i in a * b;
  }
}

/** Sums of counts. */
module Sums {
  function Sum(s: seq<nat>): nat {
    if s == [] then 0 else Sum(s[..|s| - 1]) + s[|s| - 1]
  }

  lemma {:induction false} SumUpdate(s: seq<nat>, i: nat, n: nat)
    requires i < |s|
    ensures Sum(s[i := n]) + s[i] == Sum(s) + n
  {
    var last := |s| - 1;
    if i == last {
      assert s[i := n][..last] == s[..last];
    } else {
      SumUpdate(s[..last], i, n);
      assert s[i := n][..last] == s[..last][i := n];
    }
  }

  lemma {:induction false} SumZero(s: seq<nat>)
    requires forall i :: 0 <= i < |s| ==> s[i] == 0
    ensures Sum(s) == 0
  {
    if s == [] {
    } else {
      SumZero(s[..|s| - 1]);
    }
  }
}

/** Sequences with the same elements in another order. */
module Permutations {
  /** The last element of s sits somewhere in t, and without it both are permutations again. */
  lemma {:induction false} WithoutLast<T>(s: seq<T>, t: seq<T>) returns (i: nat)
    requires s != [] && multiset(s) == multiset(t)
    ensures i < |t| && t[i] == s[|s| - 1]
    ensures multiset(s[..|s| - 1]) == multiset(t[..i] + t[i + 1..])
  {
    var init, z := s[..|s| - 1], s[|s| - 1];
    assert s == init + [z];
    assert z in multiset(t);
    i :| 0 <= i < |t| && t[i] == z;
    assert t == t[..i] + [z] + t[i + 1..];
    assert multiset(t) == multiset(t[..i] + t[i + 1..]) + multiset{z};
    assert multiset(init) == multiset(s) - multiset{z};
  }
}

/** Unsigned machine words and decimal notation. */
module Words {
  const WORD := 0x1_0000_0000_0000_0000

  type u64 = x: int | 0 <= x < WORD

  const MAX_U64: u64 := WORD - 1

  const U32 := 0x1_0000_0000

  type byte = x: int | 0 <= x < 256

  /** Overflowing additions panic in a checked build and wrap in a release build. */
  datatype Build = Checked | Release

  /** Wrapping addition. */
  function Plus(a: u64, b: u64): u64 {
    (a + b) % WORD
  }

  lemma {:induction false} PlusWraps(total: nat, amount: u64)
    ensures Plus(total % WORD, amount) == (total + amount) % WORD
  {
    var q := total / WORD;
    assert total == q * WORD + total % WORD;
    ModOfShifted(total % WORD + amount, q);
  }

  lemma {:induction false} ModOfShifted(x: nat, q: nat)
    ensures (x + q * WORD) % WORD == x % WORD
  {
    if q == 0 {
    } else {
      ModOfShifted(x, q - 1);
      assert x + q * WORD == (x + (q - 1) * WORD) + WORD;
    }
  }

  lemma {:induction false} PlusOfMods(a: nat, b: nat)
    ensures Plus(a % WORD, b % WORD) == (a + b) % WORD
  {
    PlusWraps(a, b % WORD);
    assert b == b / WORD * WORD + b % WORD;
    ModOfShifted(a + b % WORD, b / WORD);
  }

  /** The decimal digits of n, as a format string prints them. */
  function Decimal(n: nat): (s: string)
    ensures |s| > 0 && forall c :: c in s ==> '0' <= c <= '9'
  {
    if n < 10 then [Digit(n)] else Decimal(n / 10) + [Digit(n % 10)]
  }

  function Digit(d: nat): (c: char)
    requires d < 10
    ensures '0' <= c <= '9'
  {
    "0123456789"[d]
  }

  /** Different numbers print differently. */
  lemma {:induction false} DecimalInjective(m: nat, n: nat)
    requires Decimal(m) == Decimal(n)
    ensures m == n
    decreases m
  {
    var s := Decimal(m);
    if m >= 10 {
      assert s[..|s| - 1] == Decimal(m / 10);
    }
    if n >= 10 {
      assert s[..|s| - 1] == Decimal(n / 10);
    }
    assert s[|s| - 1] == Digit(m % 10) == Digit(n % 10);
    if m >= 10 && n >= 10 {
      DecimalInjective(m / 10, n / 10);
    }
  }

  /** The last mark that is not a digit separates a text from a number after it. */
  lemma {:induction false} NumberedInjective(a: string, m: nat, b: string, n: nat, mark: char)
    requires !('0' <= mark <= '9') && a + [mark] + Decimal(m) == b + [mark] + Decimal(n)
    ensures a == b && m == n
  {
    LastMark(a, m, mark);
    LastMark(b, n, mark);
    var s, t := a + [mark] + Decimal(m), b + [mark] + Decimal(n);
    assert |a| == |b|;
    assert s[..|a|] == a && t[..|b|] == b;
    assert s[|a| + 1..] == Decimal(m) && t[|b| + 1..] == Decimal(n);
    DecimalInjective(m, n);
  }

  lemma {:induction false} LastMark(a: string, m: nat, mark: char)
    requires !('0' <= mark <= '9')
    ensures var s := a + [mark] + Decimal(m);
      |a| < |s| && s[|a|] == mark && forall i :: |a| < i < |s| ==> s[i] != mark
  {
    var s := a + [mark] + Decimal(m);
    forall i | |a| < i < |s|
      ensures s[i] != mark
    {
      assert s[i] == Decimal(m)[i - |a| - 1];
      assert s[i] in Decimal(m);
    }
  }
}
