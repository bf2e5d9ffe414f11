/** Polynomials over GF(2). A polynomial is the finite set of the exponents whose coefficient is 1,
    so addition is symmetric difference and multiplication by x^k moves every exponent up by k. */
module Gf2 {
  type Poly = set<nat>

  function Add(a: Poly, b: Poly): (r: Poly)
    ensures forall e {:trigger e in r} :: e in r <==> (e in a) != (e in b)
  {
    (a - b) + (b - a)
  }

  /** x^k * a */
  function Times(a: Poly, k: nat): (r: Poly)
    ensures forall e: nat {:trigger e in r} :: e in r <==> k <= e && e - k in a
  {
    var r := set e | e in a :: e + k;
    assert forall e: nat {:trigger e in r} :: e in r <==> k <= e && e - k in a by {
      forall e: nat | k <= e && e - k in a ensures e in r {
        assert (e - k) + k in r;
      }
    }
    r
  }

  /** The sensor's generator polynomial x^8 + x^5 + x^4 + 1. */
  const P: Poly := {8, 5, 4, 0}

  /** P * q, one shifted copy of q per term of P */
  function TimesP(q: Poly): Poly {
    Add(Add(Times(q, 8), Times(q, 5)), Add(Times(q, 4), q))
  }

  ghost predicate IsMultiple(a: Poly) {
    exists q: Poly :: a == TimesP(q)
  }

  /** a and b leave the same remainder on division by P. */
  ghost predicate Congruent(a: Poly, b: Poly) {
    IsMultiple(Add(a, b))
  }

  /** r is a remainder of a on division by P. */
  ghost predicate IsRemainder(a: Poly, r: Poly) {
    (forall e :: e in r ==> e < 8) && Congruent(a, r)
  }

  lemma MultipleAdd(a: Poly, b: Poly)
    requires IsMultiple(a) && IsMultiple(b)
    ensures IsMultiple(Add(a, b))
  {
    hide Add, Times;
    var p :| a == TimesP(p);
    var q :| b == TimesP(q);
    assert Add(a, b) == TimesP(Add(p, q));
  }

  lemma TimesPTimes(q: Poly, k: nat)
    ensures TimesP(Times(q, k)) == Times(TimesP(q), k)
  {
    hide Add, Times;
  }

  lemma TimesInjective(a: Poly, b: Poly, k: nat)
    requires Times(a, k) == Times(b, k)
    ensures a == b
  {
    hide Add, Times;
    forall e: nat ensures e in a <==> e in b {
      assert e + k in Times(a, k) <==> e in a;
      assert e + k in Times(b, k) <==> e in b;
    }
  }

  lemma MultipleTimes(a: Poly, k: nat)
    requires IsMultiple(a)
    ensures IsMultiple(Times(a, k))
  {
    hide Add, Times;
    var q :| a == TimesP(q);
    TimesPTimes(q, k);
  }

  lemma CongruentRefl(a: Poly)
    ensures Congruent(a, a)
  {
    hide Add, Times;
    assert Add(a, a) == TimesP({});
  }

  lemma CongruentTrans(a: Poly, b: Poly, c: Poly)
    requires Congruent(a, b) && Congruent(b, c)
    ensures Congruent(a, c)
  {
    hide Add, Times, TimesP;
    MultipleAdd(Add(a, b), Add(b, c));
    assert Add(Add(a, b), Add(b, c)) == Add(a, c);
  }

  lemma CongruentSym(a: Poly, b: Poly)
    requires Congruent(a, b)
    ensures Congruent(b, a)
  {
    hide Add;
    assert Add(a, b) == Add(b, a);
  }

  lemma CongruentAdd(a: Poly, b: Poly, c: Poly)
    requires Congruent(a, b)
    ensures Congruent(Add(a, c), Add(b, c))
  {
    hide Add;
    assert Add(Add(a, c), Add(b, c)) == Add(a, b);
  }

  lemma CongruentTimes(a: Poly, b: Poly, k: nat)
    requires Congruent(a, b)
    ensures Congruent(Times(a, k), Times(b, k))
  {
    hide Add, Times, TimesP;
    MultipleTimes(Add(a, b), k);
    assert Add(Times(a, k), Times(b, k)) == Times(Add(a, b), k);
  }

  lemma {:induction false} Extremes(a: Poly) returns (lo: nat, hi: nat)
    requires a != {}
    ensures lo in a && hi in a
    ensures forall e :: e in a ==> lo <= e <= hi
    decreases a
  {
    var x :| x in a;
    if a == {x} {
      lo, hi := x, x;
    } else {
      lo, hi := Extremes(a - {x});
      assert forall e | e in a :: e == x || e in a - {x};
      lo, hi := if x < lo then x else lo, if hi < x then x else hi;
    }
  }

  /** A non-zero multiple of P spreads over more than 8 positions: its lowest and its highest
      exponent are at least 8 apart. */
  lemma MultipleSpan(a: Poly) returns (lo: nat, hi: nat)
    requires IsMultiple(a) && a != {}
    ensures lo in a && hi in a && lo + 8 <= hi
  {
    hide Add, Times;
    var q :| a == TimesP(q);
    var e :| e in a;
    assert e in TimesP(q);
    var qlo, qhi := Extremes(q);
    lo, hi := qlo, qhi + 8;
    assert lo in TimesP(q);
    assert hi in TimesP(q);
  }

  /** Division by P leaves one remainder only. */
  lemma RemainderUnique(a: Poly, r: Poly, s: Poly)
    requires IsRemainder(a, r) && IsRemainder(a, s)
    ensures r == s
  {
    hide Add, Times, TimesP;
    CongruentSym(a, r);
    CongruentTrans(r, a, s);
    if Add(r, s) != {} {
      var lo, hi := MultipleSpan(Add(r, s));
    }
    forall e: nat ensures e in r <==> e in s {
      assert e !in Add(r, s);
    }
  }

  /** a / x^k, for an a whose exponents are all at least k */
  function Shrink(a: Poly, k: nat): (r: Poly)
    requires forall e :: e in a ==> k <= e
    ensures forall e: nat {:trigger e in r} :: e in r <==> e + k in a
  {
    var r := set e | e in a :: e - k;
    assert forall e: nat {:trigger e in r} :: e in r <==> e + k in a by {
      forall e: nat | e + k in a ensures e in r {
        assert (e + k) - k in r;
      }
    }
    r
  }

  /** The lowest term of P * q is the lowest term of q. */
  lemma LowestTerm(q: Poly, e: nat, k: nat)
    requires e in q && e < k
    ensures exists l: nat :: l < k && l in TimesP(q)
  {
    var lo, hi := Extremes(q);
    hide Add, Times;
    assert lo in TimesP(q);
  }

  /** P has the constant term 1, so x is invertible modulo P. */
  lemma DivideByX(a: Poly, k: nat)
    requires IsMultiple(Times(a, k))
    ensures IsMultiple(a)
  {
    hide Add, Times;
    var q :| Times(a, k) == TimesP(q);
    if e :| e in q && e < k {
      LowestTerm(q, e, k);
    }
    var p := Shrink(q, k);
    assert Times(p, k) == q;
    TimesPTimes(p, k);
    TimesInjective(a, TimesP(p), k);
  }

  lemma {:induction false} TimesCard(a: Poly, k: nat)
    ensures |Times(a, k)| == |a|
    decreases a
  {
    hide Times;
    if a == {} {
      assert Times(a, k) == {};
    } else {
      var x :| x in a;
      TimesCard(a - {x}, k);
      assert Times(a, k) == Times(a - {x}, k) + {x + k};
    }
  }

  lemma AddCard(a: Poly, b: Poly)
    ensures |Add(a, b)| % 2 == (|a| + |b|) % 2
  {
    assert a == (a - b) + (a * b);
    assert b == (b - a) + (a * b);
    assert |Add(a, b)| == |a - b| + |b - a|;
  }

  /** x + 1 divides P, so every multiple of P has an even number of terms. */
  lemma MultipleEven(a: Poly)
    requires IsMultiple(a)
    ensures |a| % 2 == 0
  {
    hide Add, Times;
    var q :| a == TimesP(q);
    TimesCard(q, 8);
    TimesCard(q, 5);
    TimesCard(q, 4);
    AddCard(Times(q, 8), Times(q, 5));
    AddCard(Times(q, 4), q);
    AddCard(Add(Times(q, 8), Times(q, 5)), Add(Times(q, 4), q));
  }
}
