/** From invoice facts through the five-factor score and its grade to the fee and the net advance. */
module Pricing {
  import opened Common

  // ---------------------------------------------------------------------
  // The score
  // ---------------------------------------------------------------------

  datatype Rating = AAA | AA | A | BBB | BB | B | CCC | Unknown

  datatype Invoice = Invoice(
    face: real, issueDate: int, dueDate: Option<int>,
    rating: Rating, creditLimit: real, supplierInvoices: nat, assignmentSigned: bool)

  function TenorDays(i: Invoice): (d: int)
    ensures d >= 1
  {
    match i.dueDate
    case None => 30
    case Some(due) => if due - i.issueDate > 1 then due - i.issueDate else 1
  }

  function BuyerScore(r: Rating): int {
    match r
    case AAA => 95 case AA => 90 case A => 82 case BBB => 72
    case BB => 58 case B => 42 case CCC => 25 case Unknown => 75
  }

  function TenorScore(days: int): int {
    if days <= 30 then 95 else if days <= 60 then 85 else if days <= 90 then 70 else 50
  }

  function TrackScore(invoices: nat): int {
    if invoices >= 10 then 92 else if invoices >= 5 then 82 else if invoices >= 1 then 72 else 65
  }

  function ConcentrationScore(face: real, limit: real): int {
    if limit > 0.0 then
      var ratio := face / limit;
      if ratio <= 0.10 then 95 else if ratio <= 0.25 then 85 else if ratio <= 0.50 then 70 else 55
    else 60
  }

  function CollateralScore(signed: bool): int {
    if signed then 85 else 75
  }

  datatype Scores = Scores(buyer: int, tenor: int, track: int, concentration: int, collateral: int)

  function ScoresOf(i: Invoice): Scores {
    Scores(BuyerScore(i.rating), TenorScore(TenorDays(i)), TrackScore(i.supplierInvoices),
           ConcentrationScore(i.face, i.creditLimit), CollateralScore(i.assignmentSigned))
  }

  /** The weighted sum in hundredths, where it is exact. */
  function Hundredths(s: Scores): int {
    35 * s.buyer + 20 * s.tenor + 20 * s.track + 15 * s.concentration + 10 * s.collateral
  }

  /** Rounding to the nearest integer. The composite is a float whose error is far below a hundredth,
      so only exact halves are in doubt; `tieUp` says how each set of scores resolves them. */
  function FinalScore(s: Scores, tieUp: Scores -> bool): int {
    var h := Hundredths(s);
    h / 100 + if h % 100 > 50 || (h % 100 == 50 && tieUp(s)) then 1 else 0
  }

  datatype Grade = Low | Medium | High | Critical

  function GradeOf(score: int): Grade {
    if score >= 80 then Low else if score >= 65 then Medium else if score >= 50 then High else Critical
  }

  // ---------------------------------------------------------------------
  // The price
  // ---------------------------------------------------------------------

  /** Annual rate in per cent: base, risk premium and platform margin. */
  function AnnualRate(g: Grade): real {
    12.00 + (match g case Low => 1.50 case Medium => 2.75 case High => 4.50 case Critical => 6.50) + 2.00
  }

  function AdvanceRate(g: Grade): real {
    if g == Low then 85.00 else 80.00
  }

  function Gross(face: real, g: Grade): real {
    face * AdvanceRate(g) / 100.00
  }

  /** Round half to even at two decimals. */
  function Quantize(x: real): real {
    var cents := (100.0 * x).Floor;
    var rest := 100.0 * x - cents as real;
    (cents + if rest > 0.5 || (rest == 0.5 && cents % 2 == 1) then 1 else 0) as real / 100.0
  }

  /** `ctx` is the rounding of the decimal context after each product and quotient. */
  function FeeAt(face: real, rate: real, years: real, ctx: real -> real): real {
    Quantize(ctx(Times(ctx(Times(face, rate)), ctx(years))))
  }

  function Times(x: real, y: real): real {
    x * y
  }

  function Fee(face: real, g: Grade, tenor: int, ctx: real -> real): real {
    FeeAt(face, AnnualRate(g) / 100.0, tenor as real / 365.0, ctx)
  }

  function Net(gross: real, fee: real): real {
    if gross - fee < 0.0 then 0.0 else gross - fee
  }

  function GradeFor(i: Invoice, tieUp: Scores -> bool): Grade {
    GradeOf(FinalScore(ScoresOf(i), tieUp))
  }

  function NetAdvance(i: Invoice, tieUp: Scores -> bool, ctx: real -> real): real {
    var g := GradeFor(i, tieUp);
    Net(Gross(i.face, g), Fee(i.face, g, TenorDays(i), ctx))
  }

  // ---------------------------------------------------------------------
  // Monotonicity, stage by stage
  // ---------------------------------------------------------------------

  ghost predicate NoBetter(s: Scores, s': Scores) {
    s.buyer <= s'.buyer && s.tenor <= s'.tenor && s.track <= s'.track
    && s.concentration <= s'.concentration && s.collateral <= s'.collateral
  }

  /** However exact halves are resolved, better factors never lower the score or worsen the grade. */
  lemma ScoreMonotone(s: Scores, s': Scores, tieUp: Scores -> bool)
    requires NoBetter(s, s')
    ensures FinalScore(s, tieUp) <= FinalScore(s', tieUp)
  {
    if s != s' {
      assert Hundredths(s) < Hundredths(s');
    }
  }

  function GradeRank(g: Grade): nat {
    match g case Low => 0 case Medium => 1 case High => 2 case Critical => 3
  }

  /** Every score lies between 47 and 93, and the premium table never falls through to its default. */
  lemma ScoreRange(i: Invoice, tieUp: Scores -> bool)
    ensures 47 <= FinalScore(ScoresOf(i), tieUp) <= 93
  {
    var s := ScoresOf(i);
    assert 25 <= s.buyer <= 95 && 50 <= s.tenor <= 95 && 65 <= s.track <= 92;
    assert 55 <= s.concentration <= 95 && 75 <= s.collateral <= 85;
  }

  ghost predicate KeepsOrder(ctx: real -> real, x: real, y: real) {
    (x <= y ==> ctx(x) <= ctx(y)) && (x >= 0.0 ==> ctx(x) >= 0.0)
  }

  /** Any correct rounding keeps order and sign. */
  ghost predicate Rounding(ctx: real -> real) {
    forall x, y :: KeepsOrder(ctx, x, y)
  }

  lemma QuantizeMonotone(x: real, y: real)
    requires x <= y
    ensures Quantize(x) <= Quantize(y)
  {
    var a, b := (100.0 * x).Floor, (100.0 * y).Floor;
    if a == b {
      assert 100.0 * x - a as real <= 100.0 * y - b as real;
    } else {
      assert a + 1 <= b;
    }
  }

  lemma ProductMonotone(a: real, b: real, c: real, d: real)
    requires 0.0 <= a <= c && 0.0 <= b <= d
    ensures 0.0 <= a * b <= c * d
  {
    assert a * b <= c * b <= c * d;
  }

  lemma RoundingAt(ctx: real -> real, x: real, y: real)
    requires Rounding(ctx) && 0.0 <= x <= y
    ensures 0.0 <= ctx(x) <= ctx(y)
  {
    assert KeepsOrder(ctx, x, y);
  }

  lemma RoundedProduct(ctx: real -> real, a: real, b: real, c: real, d: real)
    requires Rounding(ctx) && 0.0 <= a <= c && 0.0 <= b <= d
    ensures 0.0 <= ctx(Times(a, b)) <= ctx(Times(c, d))
  {
    ProductMonotone(a, b, c, d);
    RoundingAt(ctx, Times(a, b), Times(c, d));
  }

  lemma FeeAtMonotone(face: real, r: real, r': real, u: real, u': real, ctx: real -> real)
    requires Rounding(ctx) && face >= 0.0 && 0.0 <= r <= r' && 0.0 <= u <= u'
    ensures FeeAt(face, r, u, ctx) <= FeeAt(face, r', u', ctx)
  {
    RoundedProduct(ctx, face, r, face, r');
    RoundingAt(ctx, u, u');
    var p, p', t, t' := ctx(Times(face, r)), ctx(Times(face, r')), ctx(u), ctx(u');
    RoundedProduct(ctx, p, t, p', t');
    QuantizeMonotone(ctx(Times(p, t)), ctx(Times(p', t')));
  }

  lemma FeeMonotone(face: real, g: Grade, tenor: int, g': Grade, tenor': int, ctx: real -> real)
    requires Rounding(ctx) && face >= 0.0 && GradeRank(g) <= GradeRank(g') && 0 <= tenor <= tenor'
    ensures Fee(face, g, tenor, ctx) <= Fee(face, g', tenor', ctx)
  {
    assert 0.0 <= AnnualRate(g) <= AnnualRate(g');
    FeeAtMonotone(face, AnnualRate(g) / 100.0, AnnualRate(g') / 100.0, tenor as real / 365.0, tenor' as real / 365.0,
      ctx);
  }

  /** `i'` is due no later after its issue than `i`; no due date counts as thirty days after issue. */
  ghost predicate DueNoLater(i': Invoice, i: Invoice) {
    match (i'.dueDate, i.dueDate)
    case (Some(due'), Some(due)) => due' - i'.issueDate <= due - i.issueDate
    case (None, Some(due)) => 30 <= due - i.issueDate
    case (Some(due'), None) => due' - i'.issueDate <= 30
    case (None, None) => true
  }

  /** An invoice at least as good in every factor, and due no later after its issue, never receives less:
      a later due date alone never raises the net advance, a better rating or a signed assignment alone
      never lowers it. */
  lemma NetAdvanceMonotone(i: Invoice, i': Invoice, tieUp: Scores -> bool, ctx: real -> real)
    requires Rounding(ctx) && i.face == i'.face && i.face >= 0.0
    requires BuyerScore(i.rating) <= BuyerScore(i'.rating) && (i.assignmentSigned ==> i'.assignmentSigned)
    requires DueNoLater(i', i) && i.supplierInvoices <= i'.supplierInvoices && i.creditLimit == i'.creditLimit
    ensures NetAdvance(i, tieUp, ctx) <= NetAdvance(i', tieUp, ctx)
  {
    assert TenorDays(i') <= TenorDays(i);
    ScoreMonotone(ScoresOf(i), ScoresOf(i'), tieUp);
    var g, g' := GradeFor(i, tieUp), GradeFor(i', tieUp);
    FeeMonotone(i.face, g', TenorDays(i'), g, TenorDays(i), ctx);
    ProductMonotone(i.face, AdvanceRate(g), i.face, AdvanceRate(g'));
  }

  // ---------------------------------------------------------------------
  // Dates, bands and rates
  // ---------------------------------------------------------------------

  /** The fee charged on an invoice. */
  function InvoiceFee(i: Invoice, tieUp: Scores -> bool, ctx: real -> real): real {
    Fee(i.face, GradeFor(i, tieUp), TenorDays(i), ctx)
  }

  /** Due `d` days after issue, an invoice is charged for `d` days, and `k` days later for `k` more. */
  lemma ChargedUntilDue(i: Invoice, d: nat, k: nat, tieUp: Scores -> bool, ctx: real -> real)
    requires d >= 1
    ensures var due := i.(dueDate := Some(i.issueDate + d));
            && InvoiceFee(due, tieUp, ctx) == Fee(i.face, GradeFor(due, tieUp), d, ctx)
            && ScoresOf(due).tenor == TenorScore(d)
            && TenorDays(due.(dueDate := Some(i.issueDate + d + k))) == d + k
  {
  }

  /** Without a due date it is priced as due in thirty days, and due on its issue date or before as due the
      day after. */
  lemma UnusualDueDates(i: Invoice, early: nat, tieUp: Scores -> bool, ctx: real -> real)
    ensures var none, thirty := i.(dueDate := None), i.(dueDate := Some(i.issueDate + 30));
            && InvoiceFee(none, tieUp, ctx) == InvoiceFee(thirty, tieUp, ctx)
            && NetAdvance(none, tieUp, ctx) == NetAdvance(thirty, tieUp, ctx)
    ensures var past, next := i.(dueDate := Some(i.issueDate - early)), i.(dueDate := Some(i.issueDate + 1));
            && InvoiceFee(past, tieUp, ctx) == InvoiceFee(next, tieUp, ctx)
            && NetAdvance(past, tieUp, ctx) == NetAdvance(next, tieUp, ctx)
  {
    assert ScoresOf(i.(dueDate := None)) == ScoresOf(i.(dueDate := Some(i.issueDate + 30)));
    assert ScoresOf(i.(dueDate := Some(i.issueDate - early))) == ScoresOf(i.(dueDate := Some(i.issueDate + 1)));
  }

  /** The rounded score is within half a point of the weighted sum. */
  lemma ScoreIsNearest(s: Scores, tieUp: Scores -> bool)
    ensures -50 <= 100 * FinalScore(s, tieUp) - Hundredths(s) <= 50
  {
  }

  /** The score falls by two points after 30 days, by three more after 60 and by four more after 90, in
      hundredths of the weighted sum, and nowhere else. */
  lemma TenorSteps(days: int, s: Scores)
    ensures Hundredths(s.(tenor := TenorScore(days))) - Hundredths(s.(tenor := TenorScore(days + 1)))
            == if days == 30 then 200 else if days == 60 then 300 else if days == 90 then 400 else 0
  {
  }

  /** It rises with the first, the fifth and the tenth invoice of the supplier. */
  lemma TrackSteps(n: nat, s: Scores)
    ensures Hundredths(s.(track := TrackScore(n + 1))) - Hundredths(s.(track := TrackScore(n)))
            == if n == 0 then 140 else if n == 4 then 200 else if n == 9 then 200 else 0
  {
  }

  /** Each rating below AAA costs, in hundredths, what stands here; an unknown one lies between A and BBB. */
  lemma RatingSteps(s: Scores)
    ensures var at := (r: Rating) => Hundredths(s.(buyer := BuyerScore(r)));
            && at(AAA) - at(AA) == 175 && at(AA) - at(A) == 280 && at(A) - at(Unknown) == 245
            && at(Unknown) - at(BBB) == 105 && at(BBB) - at(BB) == 490 && at(BB) - at(B) == 560
            && at(B) - at(CCC) == 595
  {
  }

  /** A larger share of the buyer's limit costs up to six points: full marks to a tenth of it, then steps at
      a tenth, a quarter and a half; without a limit it costs five and a quarter. */
  lemma ConcentrationSteps(face: real, limit: real, s: Scores)
    requires limit > 0.0
    ensures var score := ConcentrationScore(face, limit);
            var loss := Hundredths(s.(concentration := 95)) - Hundredths(s.(concentration := score));
            && (loss == 0 <==> face <= 0.10 * limit)
            && (loss <= 150 <==> face <= 0.25 * limit)
            && (loss <= 375 <==> face <= 0.50 * limit)
            && (loss == 0 || loss == 150 || loss == 375 || loss == 600)
    ensures Hundredths(s.(concentration := 95)) - Hundredths(s.(concentration := ConcentrationScore(face, 0.0))) == 525
  {
    RatioAt(face, limit, 0.10);
    RatioAt(face, limit, 0.25);
    RatioAt(face, limit, 0.50);
  }

  lemma RatioAt(face: real, limit: real, q: real)
    requires limit > 0.0
    ensures face / limit <= q <==> face <= q * limit
  {
    assert face == face / limit * limit;
    if face / limit <= q {
      Scaled(face / limit, q, limit);
    } else {
      StrictlyScaled(q, face / limit, limit);
    }
  }

  lemma Scaled(a: real, b: real, k: real)
    requires a <= b && k > 0.0
    ensures a * k <= b * k
  {
  }

  lemma StrictlyScaled(a: real, b: real, k: real)
    requires a < b && k > 0.0
    ensures a * k < b * k
  {
  }

  /** The best invoice scores 93.4, and a missing assignment costs one point. */
  lemma BestScore()
    ensures Hundredths(Scores(BuyerScore(AAA), TenorScore(1), TrackScore(10), 95, CollateralScore(true))) == 9340
    ensures Hundredths(Scores(BuyerScore(AAA), TenorScore(1), TrackScore(10), 95, CollateralScore(false))) == 9240
  {
  }

  /** What a score costs and advances: 15.5 per cent a year and 85 per cent from 80 points on, then 16.75,
      18.5 and 20.5 per cent from 65, from 50 and below, at 80 per cent. */
  lemma RatesByScore(score: int)
    ensures var g := GradeOf(score);
            && (AnnualRate(g) <= 15.5 <==> score >= 80) && (AnnualRate(g) <= 16.75 <==> score >= 65)
            && (AnnualRate(g) <= 18.5 <==> score >= 50) && 15.5 <= AnnualRate(g) <= 20.5
            && (AnnualRate(g) == 15.5 || AnnualRate(g) == 16.75 || AnnualRate(g) == 18.5 || AnnualRate(g) == 20.5)
            && AdvanceRate(g) == if score >= 80 then 85.0 else 80.0
  {
  }

  // ---------------------------------------------------------------------
  // When fee and net advance add up to the gross advance
  // ---------------------------------------------------------------------

  /** The fee before rounding, in cents. */
  function FeeCents(face: real, g: Grade, tenor: int): real {
    face * AnnualRate(g) * (tenor as real) / 365.0
  }

  /** The whole cents of the gross advance. */
  function GrossCents(face: real, g: Grade): int {
    (face * AdvanceRate(g)).Floor
  }

  /** The fee stays within half a cent of the whole cents of the gross advance; on the half itself the
      even cent decides. */
  predicate Affordable(face: real, g: Grade, tenor: int) {
    var limit := GrossCents(face, g) as real + 0.5;
    FeeCents(face, g, tenor) < limit || (FeeCents(face, g, tenor) == limit && GrossCents(face, g) % 2 == 0)
  }

  /** A number rounds to at most `y` exactly when it is within half a cent of the whole cents of `y`. */
  lemma QuantizeAtMost(x: real, y: real)
    ensures var c := (100.0 * y).Floor;
            Quantize(x) <= y <==> 100.0 * x < c as real + 0.5 || (100.0 * x == c as real + 0.5 && c % 2 == 0)
  {
    var c, f := (100.0 * y).Floor, (100.0 * x).Floor;
    var rest := 100.0 * x - f as real;
    var n := f + if rest > 0.5 || (rest == 0.5 && f % 2 == 1) then 1 else 0;
    assert Quantize(x) == n as real / 100.0;
    assert n as real / 100.0 <= y <==> n as real <= 100.0 * y;
    assert n as real <= 100.0 * y <==> n <= c;
  }

  /** Each rounding of the decimal context is off by at most the fraction `e`. */
  ghost predicate Near(ctx: real -> real, e: real) {
    forall x :: x >= 0.0 ==> Times(x, 1.0 - e) <= ctx(x) <= Times(x, 1.0 + e)
  }

  function Cube(x: real): real {
    x * x * x
  }

  lemma RoundedOnce(ctx: real -> real, e: real, lo: real, x: real, hi: real)
    requires Near(ctx, e) && 0.0 <= e <= 1.0 && 0.0 <= lo <= x <= hi
    ensures 0.0 <= Times(lo, 1.0 - e) <= ctx(x) <= Times(hi, 1.0 + e)
  {
    ProductMonotone(lo, 1.0 - e, x, 1.0 - e);
    ProductMonotone(x, 1.0 + e, hi, 1.0 + e);
  }

  lemma ProductBetween(a: real, x: real, b: real, c: real, y: real, d: real)
    requires 0.0 <= a <= x <= b && 0.0 <= c <= y <= d
    ensures 0.0 <= Times(a, c) <= Times(x, y) <= Times(b, d)
  {
    ProductMonotone(a, c, x, y);
    ProductMonotone(x, y, b, d);
  }

  /** Three roundings keep a product within the cubes. */
  lemma RoundedThrice(ctx: real -> real, e: real, p: real, u: real, lo: real, hi: real)
    requires Near(ctx, e) && 0.0 <= e <= 1.0 && p >= 0.0 && u >= 0.0 && lo == 1.0 - e && hi == 1.0 + e
    ensures Thrice(p, u, lo) <= ctx(Times(ctx(p), ctx(u))) <= Thrice(p, u, hi)
  {
    RoundedOnce(ctx, e, p, p, p);
    RoundedOnce(ctx, e, u, u, u);
    var pl, ph, ul, uh := Times(p, lo), Times(p, hi), Times(u, lo), Times(u, hi);
    ProductBetween(pl, ctx(p), ph, ul, ctx(u), uh);
    RoundedOnce(ctx, e, Times(pl, ul), Times(ctx(p), ctx(u)), Times(ph, uh));
  }

  function Thrice(p: real, u: real, k: real): real {
    Times(Times(Times(p, k), Times(u, k)), k)
  }

  lemma Regroup(p: real, u: real, k: real)
    ensures Thrice(p, u, k) == Times(p * u, Cube(k))
  {
    var pu, kk := p * u, k * k;
    assert p * k * (u * k) == pu * kk;
    assert pu * kk * k == pu * (kk * k);
  }

  lemma FeeWithin(face: real, g: Grade, tenor: int, ctx: real -> real, e: real) returns (x: real)
    requires Near(ctx, e) && 0.0 <= e <= 1.0 && face >= 0.0 && tenor >= 0
    ensures Fee(face, g, tenor, ctx) == Quantize(x)
    ensures Times(FeeCents(face, g, tenor), Cube(1.0 - e)) <= 100.0 * x
        <= Times(FeeCents(face, g, tenor), Cube(1.0 + e))
  {
    var p, u := Times(face, AnnualRate(g) / 100.0), tenor as real / 365.0;
    ProductMonotone(0.0, 0.0, face, AnnualRate(g) / 100.0);
    x := ctx(Times(ctx(p), ctx(u)));
    RoundedThrice(ctx, e, p, u, 1.0 - e, 1.0 + e);
    CentsOf(face, g, tenor, p, u);
    Regroup(p, u, 1.0 - e);
    Regroup(p, u, 1.0 + e);
    Hundredfold(p * u, FeeCents(face, g, tenor), Cube(1.0 - e));
    Hundredfold(p * u, FeeCents(face, g, tenor), Cube(1.0 + e));
  }

  lemma CentsOf(face: real, g: Grade, tenor: int, p: real, u: real)
    requires p == Times(face, AnnualRate(g) / 100.0) && u == tenor as real / 365.0
    ensures 100.0 * (p * u) == FeeCents(face, g, tenor)
  {
    var a, t := face * AnnualRate(g), tenor as real;
    assert 100.0 * p == a;
    assert 100.0 * (p * u) == a * u;
    assert a * u == a * t / 365.0;
  }

  lemma Hundredfold(q: real, h: real, k: real)
    requires 100.0 * q == h
    ensures 100.0 * Times(q, k) == Times(h, k)
  {
  }

  /** Where the unrounded amount `x` stands against the gross advance decides the split. */
  lemma SplitsIff(x: real, face: real, g: Grade)
    ensures var c, fee, gross := GrossCents(face, g), Quantize(x), Gross(face, g);
            && (fee + Net(gross, fee) == gross <==>
                100.0 * x < c as real + 0.5 || (100.0 * x == c as real + 0.5 && c % 2 == 0))
            && (fee > gross ==> Net(gross, fee) == 0.0)
            && (fee <= gross <==> fee + Net(gross, fee) == gross)
  {
    assert 100.0 * Gross(face, g) == face * AdvanceRate(g);
    QuantizeAtMost(x, Gross(face, g));
  }

  /** On an invoice's own face value, grade and tenor: fee and net advance add up to the gross advance
      when the fee stays within half a cent of it, and beyond that the payout is zero. The rounding error
      `e` of the decimal context only leaves open the sliver between the cubes, and without it the
      condition is exact. */
  lemma AdvanceSplitsIff(i: Invoice, tieUp: Scores -> bool, ctx: real -> real, e: real)
    requires Near(ctx, e) && 0.0 <= e <= 1.0 && i.face >= 0.0
    ensures var g, tenor := GradeFor(i, tieUp), TenorDays(i);
            var fee, gross, limit := Fee(i.face, g, tenor, ctx), Gross(i.face, g), GrossCents(i.face, g) as real + 0.5;
            && (Times(FeeCents(i.face, g, tenor), Cube(1.0 + e)) < limit ==> fee + NetAdvance(i, tieUp, ctx) == gross)
            && (Times(FeeCents(i.face, g, tenor), Cube(1.0 - e)) > limit ==>
                NetAdvance(i, tieUp, ctx) == 0.0 && fee > gross)
            && (e == 0.0 ==> (fee + NetAdvance(i, tieUp, ctx) == gross <==> Affordable(i.face, g, tenor)))
  {
    var g, tenor := GradeFor(i, tieUp), TenorDays(i);
    var x := FeeWithin(i.face, g, tenor, ctx, e);
    SplitsIff(x, i.face, g);
    if e == 0.0 {
      NoSpread(FeeCents(i.face, g, tenor), 1.0 - e);
      NoSpread(FeeCents(i.face, g, tenor), 1.0 + e);
    }
  }

  lemma NoSpread(h: real, k: real)
    requires k == 1.0
    ensures Times(h, Cube(k)) == h
  {
  }

  // ---------------------------------------------------------------------
  // The split in a decimal context of many digits
  // ---------------------------------------------------------------------

  /** The annual rate in hundredths of a per cent. */
  function RatePoints(g: Grade): int {
    1200 + (match g case Low => 150 case Medium => 275 case High => 450 case Critical => 650) + 200
  }

  /** The fee of a face value in whole cents is a whole number of 3650000ths of a cent. */
  lemma FeeGrain(cents: nat, g: Grade, tenor: nat)
    ensures FeeCents(cents as real / 100.0, g, tenor) == (cents * RatePoints(g) * tenor) as real / 3650000.0
  {
    assert AnnualRate(g) == RatePoints(g) as real / 100.0;
    var f, r, t := cents as real, RatePoints(g) as real, tenor as real;
    Grain(f, r, t);
    assert (cents * RatePoints(g)) as real == f * r;
    assert (cents * RatePoints(g) * tenor) as real == f * r * t;
  }

  lemma Grain(f: real, r: real, t: real)
    ensures (f / 100.0) * (r / 100.0) * t / 365.0 == f * r * t / 3650000.0
  {
    var p := f * r;
    assert (f / 100.0) * (r / 100.0) == p / 10000.0;
    assert p / 10000.0 * t == p * t / 10000.0;
  }

  /** So it is a half cent exactly, or at least 1/7300000 of a cent away from it. */
  lemma AwayFromHalf(n: int, c: int, h: real)
    requires h == n as real / 3650000.0 && h != c as real + 0.5
    ensures h <= c as real + 0.5 - 1.0 / 7300000.0 || h >= c as real + 0.5 + 1.0 / 7300000.0
  {
    var d := 2 * n - (2 * c + 1) * 3650000;
    assert h - (c as real + 0.5) == d as real / 7300000.0;
    assert d != 0;
  }

  /** The cubes are off by less than seven times the rounding error. */
  lemma CubesNear(h: real, e: real)
    requires h >= 0.0 && 0.0 <= e <= 1.0
    ensures Times(h, Cube(1.0 + e)) <= h + 7.0 * Times(h, e)
    ensures Times(h, Cube(1.0 - e)) >= h - 7.0 * Times(h, e)
  {
    SmallCube(e);
    ProductMonotone(h, Cube(1.0 + e), h, 1.0 + 7.0 * e);
    assert h * (1.0 + 7.0 * e) == h + 7.0 * (h * e);
    ProductMonotone(h, 0.0, h, Cube(1.0 - e) - (1.0 - 7.0 * e));
    assert h * (Cube(1.0 - e) - (1.0 - 7.0 * e)) == h * Cube(1.0 - e) - h + 7.0 * (h * e);
  }

  lemma SmallCube(e: real)
    requires 0.0 <= e <= 1.0
    ensures 0.0 <= Cube(1.0 + e) <= 1.0 + 7.0 * e
    ensures Cube(1.0 - e) >= 1.0 - 7.0 * e
  {
    var ee := e * e;
    ProductMonotone(e, e, e, 1.0);
    ProductMonotone(ee, e, ee, 1.0);
    var eee := ee * e;
    assert 0.0 <= eee <= ee <= e;
    CubeOfSum(e, ee, eee);
  }

  lemma CubeOfSum(e: real, ee: real, eee: real)
    requires ee == e * e && eee == ee * e
    ensures Cube(1.0 + e) == 1.0 + 3.0 * e + 3.0 * ee + eee
    ensures Cube(1.0 - e) == 1.0 - 3.0 * e + 3.0 * ee - eee
  {
    assert (1.0 + e) * (1.0 + e) == 1.0 + 2.0 * e + ee;
    assert (1.0 - e) * (1.0 - e) == 1.0 - 2.0 * e + ee;
  }

  /** For a face value in whole cents, and a context precise enough for the size of the fee (at 28 digits
      `e` is 5/10^28 and any fee below 3.9 * 10^19 cents will do), the condition is exact but for a fee of
      exactly half a cent over the whole cents of the gross advance. */
  lemma AdvanceSplitsExactly(i: Invoice, cents: nat, tieUp: Scores -> bool, ctx: real -> real, e: real)
    requires Near(ctx, e) && 0.0 <= e <= 1.0 && i.face == cents as real / 100.0
    requires 51100000.0 * Times(FeeCents(i.face, GradeFor(i, tieUp), TenorDays(i)), e) < 1.0
    ensures var g, tenor := GradeFor(i, tieUp), TenorDays(i);
            var fee, gross, limit := Fee(i.face, g, tenor, ctx), Gross(i.face, g), GrossCents(i.face, g) as real + 0.5;
            FeeCents(i.face, g, tenor) != limit ==>
              && (fee + NetAdvance(i, tieUp, ctx) == gross <==> FeeCents(i.face, g, tenor) < limit)
              && (FeeCents(i.face, g, tenor) > limit ==> NetAdvance(i, tieUp, ctx) == 0.0)
  {
    var g, tenor := GradeFor(i, tieUp), TenorDays(i);
    var h, c := FeeCents(i.face, g, tenor), GrossCents(i.face, g);
    FeeGrain(cents, g, tenor);
    FeeNonNegative(i.face, g, tenor);
    AdvanceSplitsIff(i, tieUp, ctx, e);
    CubesNear(h, e);
    if h != c as real + 0.5 {
      AwayFromHalf(cents * RatePoints(g) * tenor, c, h);
    }
  }

  lemma FeeNonNegative(face: real, g: Grade, tenor: nat)
    requires face >= 0.0
    ensures FeeCents(face, g, tenor) >= 0.0
  {
    ProductMonotone(0.0, 0.0, face, AnnualRate(g));
    ProductMonotone(0.0, 0.0, face * AnnualRate(g), tenor as real);
  }
}
