/**
 Names with a number at the end: what both suffix searches of the workspace manager
 (src/core/workspace/index.js) rely on.
 */
module Naming {

  function Digit(d: nat): char
    requires d < 10
  {
    ('0' as int + d) as char
  }

  function Decimal(n: nat): string {
    if n < 10 then [Digit(n)] else Decimal(n / 10) + [Digit(n % 10)]
  }

  function Number(digits: string): int {
    if digits == "" then 0
    else Number(digits[..|digits| - 1]) * 10 + (digits[|digits| - 1] as int - '0' as int)
  }

  lemma {:induction false} NumberOfDecimal(n: nat)
    ensures Number(Decimal(n)) == n
  {
    if n < 10 {
      assert Number([]) == 0;
      assert [Digit(n)][..0] == [];
    } else {
      NumberOfDecimal(n / 10);
      assert Decimal(n)[..|Decimal(n)| - 1] == Decimal(n / 10);
    }
  }

  /** The candidates of a search: the base name itself, then base-2, base-3 and so on. */
  function Candidate(base: string, i: nat): string {
    if i < 2 then base else base + "-" + Decimal(i)
  }

  /** The first is the base name; the others are the base name, a hyphen and their number. */
  lemma CandidateReads(base: string, i: nat)
    requires i >= 1
    ensures if i == 1 then Candidate(base, i) == base
            else
              var c := Candidate(base, i);
              |c| > |base| && c[..|base|] == base && c[|base|] == '-' && Number(c[|base| + 1..]) == i
  {
    if i > 1 {
      NumberOfDecimal(i);
      assert Candidate(base, i)[|base| + 1..] == Decimal(i);
    }
  }

  lemma CandidatesDiffer(base: string, i: nat, j: nat)
    requires 1 <= i < j
    ensures Candidate(base, i) != Candidate(base, j)
  {
    NumberOfDecimal(i);
    NumberOfDecimal(j);
    assert Candidate(base, j)[|base| + 1..] == Decimal(j);
    if 2 <= i {
      assert Candidate(base, i)[|base| + 1..] == Decimal(i);
    }
  }

  lemma {:induction false} SubsetIsSmaller<T>(a: set<T>, b: set<T>)
    requires a <= b
    ensures |a| <= |b|
  {
    if a != {} {
      var x :| x in a;
      SubsetIsSmaller(a - {x}, b - {x});
    }
  }

  function Tried(base: string, i: nat): set<string> {
    if i < 2 then {} else Tried(base, i - 1) + {Candidate(base, i - 1)}
  }

  lemma {:induction false} TriedHas(base: string, i: nat)
    ensures forall x :: x in Tried(base, i) <==> exists j :: 1 <= j < i && x == Candidate(base, j)
    ensures i >= 1 ==> |Tried(base, i)| == i - 1
  {
    if i >= 2 {
      TriedHas(base, i - 1);
      forall j | 1 <= j < i - 1 ensures Candidate(base, j) != Candidate(base, i - 1) {
        CandidatesDiffer(base, j, i - 1);
      }
    }
  }

  /** The pigeonhole behind termination: finitely many taken names block finitely many candidates. */
  lemma BlockedAtMost(base: string, taken: set<string>, i: nat)
    requires i >= 1 && forall j :: 1 <= j < i ==> Candidate(base, j) in taken
    ensures i - 1 <= |taken|
  {
    TriedHas(base, i);
    SubsetIsSmaller(Tried(base, i), taken);
  }

  /** The first candidate that is not taken. */
  ghost predicate IsFirstFree(base: string, taken: set<string>, name: string) {
    exists i :: 1 <= i && name == Candidate(base, i) && name !in taken && forall j :: 1 <= j < i ==> Candidate(base, j) in taken
  }

  /** There is only one such name. */
  lemma FirstFreeIsUnique(base: string, taken: set<string>, a: string, b: string)
    requires IsFirstFree(base, taken, a) && IsFirstFree(base, taken, b)
    ensures a == b
  {
    var i :| 1 <= i && a == Candidate(base, i) && a !in taken && forall j :: 1 <= j < i ==> Candidate(base, j) in taken;
    var k :| 1 <= k && b == Candidate(base, k) && b !in taken && forall j :: 1 <= j < k ==> Candidate(base, j) in taken;
    assert !(i < k) && !(k < i);
  }
}
