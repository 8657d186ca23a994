/** Columns of the AES state as polynomials over GF(2^8) (FIPS 197, sections 4 and 5). */
module AesField {
  import opened AesTables

  function Xor(a: bv8, b: bv8): bv8 { a ^ b }

  function Sum4(a: bv8, b: bv8, c: bv8, d: bv8): bv8
  {
    Xor(Xor(a, b), Xor(c, d))
  }

  // The field product of x with a constant c < 16.
  function Times(c: bv8, x: bv8): bv8
  {
    Sum4(if c & 1 != 0 then x else 0,
         if c & 2 != 0 then Xtime(x) else 0,
         if c & 4 != 0 then Xtime(Xtime(x)) else 0,
         if c & 8 != 0 then Xtime(Xtime(Xtime(x))) else 0)
  }

  // Four bytes: a column of the state, or the coefficients of a polynomial.
  datatype Column = Column(b0: bv8, b1: bv8, b2: bv8, b3: bv8)

  function Rotate(a: Column): Column
  {
    Column(a.b1, a.b2, a.b3, a.b0)
  }

  // Coefficient 0 of the product of column a with the polynomial p.b0 + p.b1 x^3 + p.b2 x^2 + p.b3 x, modulo
  // x^4 + 1. Coefficient k is the same row applied to the column rotated k times.
  function Row(p: Column, a: Column): bv8
  {
    Sum4(Times(p.b0, a.b0), Times(p.b1, a.b1), Times(p.b2, a.b2), Times(p.b3, a.b3))
  }

  function Product(p: Column, a: Column): Column
  {
    Column(Row(p, a), Row(p, Rotate(a)), Row(p, Rotate(Rotate(a))), Row(p, Rotate(Rotate(Rotate(a)))))
  }

  // The polynomials of MixColumns and InvMixColumns (FIPS 197, sections 5.1.3 and 5.3.3).
  const MIX := Column(2, 3, 1, 1)
  const INV_MIX := Column(14, 11, 13, 9)

  // ----- Linearity -----

  lemma XtimeBits(x: bv8)
    ensures Xtime(x) == (x << 1) ^ (x >> 7) ^ ((x >> 7) << 1) ^ ((x >> 7) << 3) ^ ((x >> 7) << 4)
  {
  }

  lemma XtimeAdditive(a: bv8, b: bv8)
    ensures Xtime(Xor(a, b)) == Xor(Xtime(a), Xtime(b))
  {
    hide Xtime;
    XtimeBits(a);
    XtimeBits(b);
    XtimeBits(a ^ b);
  }

  lemma XorAssociative(a: bv8, b: bv8, c: bv8)
    ensures Xor(Xor(a, b), c) == Xor(a, Xor(b, c))
  {
  }

  lemma XorCommutative(a: bv8, b: bv8)
    ensures Xor(a, b) == Xor(b, a)
  {
  }

  lemma XorSwap(a: bv8, b: bv8, c: bv8, d: bv8)
    ensures Xor(Xor(a, b), Xor(c, d)) == Xor(Xor(a, c), Xor(b, d))
  {
    hide Xor;
    XorAssociative(a, b, Xor(c, d));
    XorAssociative(b, c, d);
    XorCommutative(b, c);
    XorAssociative(c, b, d);
    XorAssociative(a, c, Xor(b, d));
  }

  lemma XorZero(a: bv8)
    ensures Xor(a, 0) == a == Xor(0, a)
  {
  }

  lemma Sum4Regroup(a: bv8, b: bv8, c: bv8, d: bv8, a': bv8, b': bv8, c': bv8, d': bv8)
    ensures Sum4(Xor(a, a'), Xor(b, b'), Xor(c, c'), Xor(d, d')) == Xor(Sum4(a, b, c, d), Sum4(a', b', c', d'))
  {
    hide Xor;
    XorSwap(a, a', b, b');
    XorSwap(c, c', d, d');
    XorSwap(Xor(a, b), Xor(a', b'), Xor(c, d), Xor(c', d'));
  }

  lemma TimesAdditive(c: bv8, a: bv8, b: bv8)
    ensures Times(c, Xor(a, b)) == Xor(Times(c, a), Times(c, b))
  {
    hide Xtime, Xor, Sum4;
    var a2, b2 := Xtime(a), Xtime(b);
    var a4, b4 := Xtime(a2), Xtime(b2);
    XtimeAdditive(a, b);
    XtimeAdditive(a2, b2);
    XtimeAdditive(a4, b4);
    XorZero(0);
    Sum4Regroup(if c & 1 != 0 then a else 0, if c & 2 != 0 then a2 else 0, if c & 4 != 0 then a4 else 0,
                if c & 8 != 0 then Xtime(a4) else 0,
                if c & 1 != 0 then b else 0, if c & 2 != 0 then b2 else 0, if c & 4 != 0 then b4 else 0,
                if c & 8 != 0 then Xtime(b4) else 0);
  }

  lemma TimesSum4(c: bv8, a0: bv8, a1: bv8, a2: bv8, a3: bv8)
    ensures Times(c, Sum4(a0, a1, a2, a3)) == Sum4(Times(c, a0), Times(c, a1), Times(c, a2), Times(c, a3))
  {
    hide Times, Xor;
    TimesAdditive(c, Xor(a0, a1), Xor(a2, a3));
    TimesAdditive(c, a0, a1);
    TimesAdditive(c, a2, a3);
  }

  // Adding up a four-by-four table by rows or by columns gives the same byte.
  lemma Sum4Transpose(a0: bv8, a1: bv8, a2: bv8, a3: bv8, b0: bv8, b1: bv8, b2: bv8, b3: bv8,
                      c0: bv8, c1: bv8, c2: bv8, c3: bv8, d0: bv8, d1: bv8, d2: bv8, d3: bv8)
    ensures Sum4(Sum4(a0, a1, a2, a3), Sum4(b0, b1, b2, b3), Sum4(c0, c1, c2, c3), Sum4(d0, d1, d2, d3)) ==
            Sum4(Sum4(a0, b0, c0, d0), Sum4(a1, b1, c1, d1), Sum4(a2, b2, c2, d2), Sum4(a3, b3, c3, d3))
  {
    hide Xor;
    XorSwap(Xor(a0, a1), Xor(a2, a3), Xor(b0, b1), Xor(b2, b3));
    XorSwap(Xor(c0, c1), Xor(c2, c3), Xor(d0, d1), Xor(d2, d3));
    XorSwap(a0, a1, b0, b1);
    XorSwap(a2, a3, b2, b3);
    XorSwap(c0, c1, d0, d1);
    XorSwap(c2, c3, d2, d3);
    XorSwap(Xor(Xor(a0, b0), Xor(a1, b1)), Xor(Xor(a2, b2), Xor(a3, b3)),
            Xor(Xor(c0, d0), Xor(c1, d1)), Xor(Xor(c2, d2), Xor(c3, d3)));
    XorSwap(Xor(a0, b0), Xor(a1, b1), Xor(c0, d0), Xor(c1, d1));
    XorSwap(Xor(a2, b2), Xor(a3, b3), Xor(c2, d2), Xor(c3, d3));
  }

  // ----- The two column transformations are inverse -----

  // What byte x of the column contributes to coefficient 0 of p * (q * column), when q is rotated to its place.
  function Through(p: Column, q: Column, x: bv8): bv8
  {
    Sum4(Times(p.b0, Times(q.b0, x)), Times(p.b1, Times(q.b3, x)),
         Times(p.b2, Times(q.b2, x)), Times(p.b3, Times(q.b1, x)))
  }

  lemma Sum4Rotate(a: bv8, b: bv8, c: bv8, d: bv8)
    ensures Sum4(a, b, c, d) == Sum4(b, c, d, a)
  {
    hide Xor;
    XorSwap(a, b, c, d);
    XorCommutative(Xor(a, c), Xor(b, d));
    XorCommutative(a, c);
    XorSwap(b, d, c, a);
  }

  lemma RowOfProduct(p: Column, q: Column, a: Column)
    ensures Row(p, Product(q, a)) ==
            Sum4(Through(p, q, a.b0), Through(p, Rotate(q), a.b1),
                 Through(p, Rotate(Rotate(q)), a.b2), Through(p, Rotate(Rotate(Rotate(q))), a.b3))
  {
    hide Times, Sum4;
    TimesSum4(p.b0, Times(q.b0, a.b0), Times(q.b1, a.b1), Times(q.b2, a.b2), Times(q.b3, a.b3));
    TimesSum4(p.b1, Times(q.b3, a.b0), Times(q.b0, a.b1), Times(q.b1, a.b2), Times(q.b2, a.b3));
    TimesSum4(p.b2, Times(q.b2, a.b0), Times(q.b3, a.b1), Times(q.b0, a.b2), Times(q.b1, a.b3));
    TimesSum4(p.b3, Times(q.b1, a.b0), Times(q.b2, a.b1), Times(q.b3, a.b2), Times(q.b0, a.b3));
    // Each row of the product lists the bytes from its own position on; put them back in order.
    Sum4Rotate(Times(q.b3, a.b0), Times(q.b0, a.b1), Times(q.b1, a.b2), Times(q.b2, a.b3));
    Sum4Rotate(Times(q.b2, a.b0), Times(q.b3, a.b1), Times(q.b0, a.b2), Times(q.b1, a.b3));
    Sum4Rotate(Times(q.b3, a.b1), Times(q.b0, a.b2), Times(q.b1, a.b3), Times(q.b2, a.b0));
    Sum4Rotate(Times(q.b0, a.b3), Times(q.b1, a.b0), Times(q.b2, a.b1), Times(q.b3, a.b2));
    Sum4Transpose(
      Times(p.b0, Times(q.b0, a.b0)), Times(p.b0, Times(q.b1, a.b1)), Times(p.b0, Times(q.b2, a.b2)), Times(p.b0, Times(q.b3, a.b3)),
      Times(p.b1, Times(q.b3, a.b0)), Times(p.b1, Times(q.b0, a.b1)), Times(p.b1, Times(q.b1, a.b2)), Times(p.b1, Times(q.b2, a.b3)),
      Times(p.b2, Times(q.b2, a.b0)), Times(p.b2, Times(q.b3, a.b1)), Times(p.b2, Times(q.b0, a.b2)), Times(p.b2, Times(q.b1, a.b3)),
      Times(p.b3, Times(q.b1, a.b0)), Times(p.b3, Times(q.b2, a.b1)), Times(p.b3, Times(q.b3, a.b2)), Times(p.b3, Times(q.b0, a.b3)));
  }

  // p and q are inverse modulo x^4 + 1: only the byte at the coefficient itself comes through.
  ghost predicate Inverse(p: Column, q: Column)
  {
    forall x ::
      && Through(p, q, x) == x
      && Through(p, Rotate(q), x) == Through(p, Rotate(Rotate(q)), x) == Through(p, Rotate(Rotate(Rotate(q))), x) == 0
  }

  lemma RowUndoesProduct(p: Column, q: Column, a: Column)
    requires Inverse(p, q)
    ensures Row(p, Product(q, a)) == a.b0
  {
    hide Sum4, Row, Product, Through;
    RowOfProduct(p, q, a);
    Sum4Zero(a.b0);
  }

  lemma Sum4Zero(a: bv8)
    ensures Sum4(a, 0, 0, 0) == a
  {
  }

  lemma ProductUndone(p: Column, q: Column, a: Column)
    requires Inverse(p, q)
    ensures Product(p, Product(q, a)) == a
  {
    hide Row, Through;
    var a' := Rotate(a);
    var a'' := Rotate(a');
    RowUndoesProduct(p, q, a);
    RowUndoesProduct(p, q, a');
    RowUndoesProduct(p, q, a'');
    RowUndoesProduct(p, q, Rotate(a''));
  }

  lemma InvMixTimesMix0(x: bv8)
    ensures Sum4(Times(14, Times(2, x)), Times(11, Times(1, x)),
                 Times(13, Times(1, x)), Times(9, Times(3, x))) == x
  {
  }

  lemma InvMixTimesMix1(x: bv8)
    ensures Sum4(Times(14, Times(3, x)), Times(11, Times(2, x)),
                 Times(13, Times(1, x)), Times(9, Times(1, x))) == 0
  {
  }

  lemma InvMixTimesMix2(x: bv8)
    ensures Sum4(Times(14, Times(1, x)), Times(11, Times(3, x)),
                 Times(13, Times(2, x)), Times(9, Times(1, x))) == 0
  {
  }

  lemma InvMixTimesMix3(x: bv8)
    ensures Sum4(Times(14, Times(1, x)), Times(11, Times(1, x)),
                 Times(13, Times(3, x)), Times(9, Times(2, x))) == 0
  {
  }

  lemma MixTimesInvMix0(x: bv8)
    ensures Sum4(Times(2, Times(14, x)), Times(3, Times(9, x)),
                 Times(1, Times(13, x)), Times(1, Times(11, x))) == x
  {
  }

  lemma MixTimesInvMix1(x: bv8)
    ensures Sum4(Times(2, Times(11, x)), Times(3, Times(14, x)),
                 Times(1, Times(9, x)), Times(1, Times(13, x))) == 0
  {
  }

  lemma MixTimesInvMix2(x: bv8)
    ensures Sum4(Times(2, Times(13, x)), Times(3, Times(11, x)),
                 Times(1, Times(14, x)), Times(1, Times(9, x))) == 0
  {
  }

  lemma MixTimesInvMix3(x: bv8)
    ensures Sum4(Times(2, Times(9, x)), Times(3, Times(13, x)),
                 Times(1, Times(11, x)), Times(1, Times(14, x))) == 0
  {
  }

  // MixColumns and InvMixColumns undo each other on every column (FIPS 197, section 5.3.3).
  lemma MixInverse()
    ensures Inverse(INV_MIX, MIX) && Inverse(MIX, INV_MIX)
  {
    hide Times, Sum4;
    forall x
      ensures Through(INV_MIX, MIX, x) == x
      ensures Through(INV_MIX, Rotate(MIX), x) == 0
      ensures Through(INV_MIX, Rotate(Rotate(MIX)), x) == 0
      ensures Through(INV_MIX, Rotate(Rotate(Rotate(MIX))), x) == 0
      ensures Through(MIX, INV_MIX, x) == x
      ensures Through(MIX, Rotate(INV_MIX), x) == 0
      ensures Through(MIX, Rotate(Rotate(INV_MIX)), x) == 0
      ensures Through(MIX, Rotate(Rotate(Rotate(INV_MIX))), x) == 0
    {
      InvMixTimesMix0(x);
      InvMixTimesMix1(x);
      InvMixTimesMix2(x);
      InvMixTimesMix3(x);
      MixTimesInvMix0(x);
      MixTimesInvMix1(x);
      MixTimesInvMix2(x);
      MixTimesInvMix3(x);
    }
  }
}
