/**
 * The names given to helper tensors: a prefix of the pass, a running number, the name of the
 * lowered thing and a suffix (src/qdq_lowering.cc:648-653, src/pooling_dilation_compatibility.cc:236-241).
 * The number alone keeps two helpers apart.
 */
module LoweredNames {
  predicate IsDigits(s: string) {
    forall i :: 0 <= i < |s| ==> '0' <= s[i] <= '9'
  }

  // The decimal text of the next number.
  function Successor(s: string): (t: string)
    requires IsDigits(s)
    ensures IsDigits(t)
  {
    if s == "" then "1"
    else
      var last := |s| - 1;
      if s[last] == '9' then Successor(s[..last]) + "0" else s[..last] + [(s[last] as int + 1) as char]
  }

  function Decimal(n: nat): (s: string)
    ensures IsDigits(s)
  {
    if n == 0 then "0" else Successor(Decimal(n - 1))
  }

  function ValueOf(s: string): (n: nat)
    requires IsDigits(s)
  {
    if s == "" then 0 else 10 * ValueOf(s[..|s| - 1]) + (s[|s| - 1] as int - '0' as int)
  }

  lemma {:induction false} SuccessorCounts(s: string)
    requires IsDigits(s)
    ensures ValueOf(Successor(s)) == ValueOf(s) + 1
  {
    var t := Successor(s);
    if s == "" {
      assert t[..0] == "";
    } else {
      var last := |s| - 1;
      if s[last] == '9' {
        SuccessorCounts(s[..last]);
        assert t[..|t| - 1] == Successor(s[..last]);
      } else {
        assert t[..|t| - 1] == s[..last];
      }
    }
  }

  // The text tells the number.
  lemma {:induction false} DecimalIsFaithful(n: nat)
    ensures ValueOf(Decimal(n)) == n
  {
    if n == 0 {
      assert "0"[..0] == "";
    } else {
      DecimalIsFaithful(n - 1);
      SuccessorCounts(Decimal(n - 1));
    }
  }

  function Stem(prefix: string, id: nat): (s: string) {
    prefix + Decimal(id) + "_"
  }

  function MakeLoweredName(prefix: string, base: string, suffix: string, id: nat): (name: string) {
    Stem(prefix, id) + (base + "_" + suffix)
  }

  predicate IsLowered(prefix: string, name: string, id: nat) {
    Stem(prefix, id) <= name
  }

  predicate IsReserved(prefix: string, name: string) {
    prefix <= name
  }

  lemma LoweredIsReserved(prefix: string, name: string, id: nat)
    requires IsLowered(prefix, name, id)
    ensures IsReserved(prefix, name) && name != ""
  {
    assert prefix <= Stem(prefix, id);
  }

  // Two names that share a stem share its number.
  lemma NumbersKeepApart(prefix: string, name: string, i: nat, j: nat)
    requires IsLowered(prefix, name, i) && IsLowered(prefix, name, j)
    ensures i == j
  {
    var rest := name[|prefix|..];
    var a, b := Decimal(i), Decimal(j);
    assert name[..|Stem(prefix, i)|] == Stem(prefix, i) && name[..|Stem(prefix, j)|] == Stem(prefix, j);
    assert rest[..|a| + 1] == a + "_" by {
      assert Stem(prefix, i)[|prefix|..] == a + "_";
      assert name[..|Stem(prefix, i)|][|prefix|..] == rest[..|a| + 1];
    }
    assert rest[..|b| + 1] == b + "_" by {
      assert Stem(prefix, j)[|prefix|..] == b + "_";
      assert name[..|Stem(prefix, j)|][|prefix|..] == rest[..|b| + 1];
    }
    DigitsEndAlike(rest, a, b);
    DecimalIsFaithful(i);
    DecimalIsFaithful(j);
  }

  lemma DigitsEndAlike(rest: string, a: string, b: string)
    requires |a| < |rest| && |b| < |rest| && rest[..|a| + 1] == a + "_" && rest[..|b| + 1] == b + "_"
    requires IsDigits(a) && IsDigits(b)
    ensures a == b
  {
    assert rest[..|a| + 1][|a|] == '_' && rest[..|b| + 1][|b|] == '_';
    assert a == rest[..|a|] && b == rest[..|b|];
    assert forall i :: 0 <= i < |a| ==> rest[i] == a[i];
    assert forall i :: 0 <= i < |b| ==> rest[i] == b[i];
  }

  lemma SuffixesKeepApart(base: string, x: string, y: string)
    ensures x != y ==> base + x != base + y
  {
    var a, b := base + x, base + y;
    assert a[|base|..] == x;
    assert b[|base|..] == y;
  }

  // How a pass names its helpers.
  datatype Naming = Naming(prefix: string, name: (string, string, nat) -> string)

  function NamingOf(prefix: string): (n: Naming) {
    Naming(prefix, (base, suffix, id: nat) => MakeLoweredName(prefix, base, suffix, id))
  }

  ghost predicate NamesApart(n: Naming, base: string, x: string, y: string, id: nat) {
    x != y ==> n.name(base, x, id) != n.name(base, y, id)
  }

  // Names carry their number, and suffixes tell apart what shares it.
  ghost predicate IsNaming(n: Naming) {
    && (forall base, suffix, id {:trigger n.name(base, suffix, id)} ::
          IsLowered(n.prefix, n.name(base, suffix, id), id) && n.name(base, suffix, id) != "")
    && (forall base, x, y, id {:trigger NamesApart(n, base, x, y, id)} :: NamesApart(n, base, x, y, id))
  }

  lemma PassesName(prefix: string)
    ensures IsNaming(NamingOf(prefix))
  {
    var n := NamingOf(prefix);
    forall base, x, y, id ensures NamesApart(n, base, x, y, id) {
      SuffixesKeepApart(Stem(prefix, id) + (base + "_"), x, y);
      assert n.name(base, x, id) == Stem(prefix, id) + (base + "_") + x;
      assert n.name(base, y, id) == Stem(prefix, id) + (base + "_") + y;
    }
  }
}
