/** Server-side names of the shapes of a collision object, and when they can collide. */
module Names {

  function Digit(d: nat): char
    requires d < 10
  {
    "0123456789"[d]
  }

  function ToString(i: nat): string {
    if i < 10 then [Digit(i)] else ToString(i / 10) + [Digit(i % 10)]
  }

  /** The name of shape `i` of an object with `n` shapes: single shapes keep the object's id. */
  function MemberName(base: string, i: nat, n: nat): string {
    if n == 1 then base else base + "__" + ToString(i)
  }

  ghost predicate Plain(s: string) {
    forall k :: 0 <= k < |s| ==> s[k] != '_'
  }

  lemma {:induction false} ToStringPlain(i: nat)
    ensures Plain(ToString(i)) && |ToString(i)| > 0
  {
    if i >= 10 {
      ToStringPlain(i / 10);
    }
  }

  /** The number a string of decimal digits stands for. */
  function ValueOf(s: string): int {
    if s == [] then 0 else 10 * ValueOf(s[..|s| - 1]) + (s[|s| - 1] as int - '0' as int)
  }

  /** A number's text is its decimal digits, without leading zeros. */
  lemma {:induction false} ToStringDecimal(i: nat)
    ensures ValueOf(ToString(i)) == i
    ensures forall k :: 0 <= k < |ToString(i)| ==> '0' <= ToString(i)[k] <= '9'
    ensures ToString(i) != [] && (ToString(i)[0] == '0' ==> i == 0)
  {
    if i < 10 {
      assert ToString(i)[..0] == [];
    } else {
      ToStringDecimal(i / 10);
      assert ToString(i)[..|ToString(i)| - 1] == ToString(i / 10);
    }
  }

  lemma DigitInjective(c: nat, d: nat)
    requires c < 10 && d < 10 && Digit(c) == Digit(d)
    ensures c == d
  {
  }

  lemma {:induction false} ToStringInjective(i: nat, j: nat)
    requires ToString(i) == ToString(j)
    ensures i == j
  {
    var s, t := ToString(i), ToString(j);
    assert s[|s| - 1] == Digit(i % 10) && t[|t| - 1] == Digit(j % 10);
    DigitInjective(i % 10, j % 10);
    ToStringPlain(i / 10);
    ToStringPlain(j / 10);
    if i >= 10 && j >= 10 {
      assert ToString(i / 10) == s[..|s| - 1] && ToString(j / 10) == t[..|t| - 1];
      ToStringInjective(i / 10, j / 10);
    }
  }

  /** `c` is a name that object `b` gives to one of several shapes. */
  ghost predicate Extends(b: string, c: string) {
    exists i: nat :: c == b + "__" + ToString(i)
  }

  lemma NumberAtEnd(s: string, b: string, i: nat)
    requires s == b + "__" + ToString(i)
    ensures |s| == |b| + 2 + |ToString(i)|
    ensures s[|s| - |ToString(i)| - 1] == '_' && s[|s| - |ToString(i)|..] == ToString(i)
    ensures forall k :: |s| - |ToString(i)| <= k < |s| ==> s[k] != '_'
    ensures s[..|b|] == b
  {
    ToStringPlain(i);
    assert forall k :: |s| - |ToString(i)| <= k < |s| ==> s[k] == ToString(i)[k - (|s| - |ToString(i)|)];
  }

  lemma SuffixUnique(b: string, i: nat, c: string, j: nat)
    requires b + "__" + ToString(i) == c + "__" + ToString(j)
    ensures b == c && i == j
  {
    var s := b + "__" + ToString(i);
    NumberAtEnd(s, b, i);
    NumberAtEnd(s, c, j);
    ToStringInjective(i, j);
  }

  lemma SuffixLonger(b: string, i: nat)
    ensures b != b + "__" + ToString(i)
  {
    assert |b| < |b + "__" + ToString(i)|;
  }

  /** Shapes of two objects can get the same name exactly when one object's id is a name the
      other gives to one of several shapes. */
  lemma NamesCollideExactly(b: string, c: string)
    requires b != c
    ensures (exists i, n, j, m :: i < n && j < m && MemberName(b, i, n) == MemberName(c, j, m))
            <==> Extends(b, c) || Extends(c, b)
  {
    if i, n, j, m :| i < n && j < m && MemberName(b, i, n) == MemberName(c, j, m) {
      if n != 1 && m != 1 {
        SuffixUnique(b, i, c, j);
      }
    }
    if Extends(b, c) {
      var i: nat :| c == b + "__" + ToString(i);
      assert i < i + 2 && 0 < 1 && MemberName(b, i, i + 2) == MemberName(c, 0, 1);
    }
    if Extends(c, b) {
      var j: nat :| b == c + "__" + ToString(j);
      assert 0 < 1 && j < j + 2 && MemberName(b, 0, 1) == MemberName(c, j, j + 2);
    }
  }

  lemma MemberInjective(b: string, i: nat, j: nat, n: nat)
    requires i < n && j < n && MemberName(b, i, n) == MemberName(b, j, n)
    ensures i == j
  {
    if n != 1 {
      SuffixUnique(b, i, b, j);
    }
  }

  ghost predicate IsMember(b: string, n: nat, m: string) {
    exists i :: 0 <= i < n && m == MemberName(b, i, n)
  }

  /** Nothing was split off or merged: no shapes, the same number, or at least two that did not
      become fewer. */
  predicate CountKeeps(n: nat, k: nat) {
    n == 0 || n == k || 2 <= n <= k
  }

  /** The last name for `n` shapes decides whether all of them are names for `k`. */
  lemma LastNameKept(b: string, n: nat, k: nat)
    requires n > 0
    ensures IsMember(b, k, MemberName(b, n - 1, n)) <==> CountKeeps(n, k)
  {
    var last := MemberName(b, n - 1, n);
    if CountKeeps(n, k) {
      assert last == MemberName(b, n - 1, k);
    }
    if IsMember(b, k, last) {
      var i :| 0 <= i < k && last == MemberName(b, i, k);
      SuffixLonger(b, n - 1);
      SuffixLonger(b, i);
      if n != 1 && k != 1 {
        SuffixUnique(b, n - 1, b, i);
      }
    }
  }

  /** Every name for `n` shapes is a name for `k` shapes exactly when nothing was split off or merged. */
  lemma NamesKeptExactly(b: string, n: nat, k: nat)
    ensures (forall m :: IsMember(b, n, m) ==> IsMember(b, k, m)) <==> CountKeeps(n, k)
  {
    if CountKeeps(n, k) {
      forall m | IsMember(b, n, m) ensures IsMember(b, k, m) {
        var i :| 0 <= i < n && m == MemberName(b, i, n);
        assert m == MemberName(b, i, k);
      }
    } else {
      LastNameKept(b, n, k);
      assert IsMember(b, n, MemberName(b, n - 1, n));
    }
  }
}
