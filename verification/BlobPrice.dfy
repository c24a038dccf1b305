/** The price of blob gas, and the excess from which it outgrows 128 bits. */
module BlobPrices {
  import opened Primitives
  import opened Arithmetic
  import opened BlobFee

  const MIN_BLOB_GASPRICE := 1
  const BLOB_GASPRICE_UPDATE_FRACTION := 3338477

  /** The largest excess with a price, some 57.6 update fractions. */
  const LARGEST_EXCESS := 192204552

  // ----- The accumulators at that excess and at the next -----

  function Term(excess: nat, k: nat): nat {
    Accumulator(MIN_BLOB_GASPRICE, excess, BLOB_GASPRICE_UPDATE_FRACTION, k)
  }

  /** The quotient by the update fraction times `k` is `after`. */
  lemma OneTurnOf(excess: nat, k: nat, before: nat, after: nat)
    requires k > 0 && Term(excess, k - 1) == before
    requires 3338477 * k * after <= before * excess < 3338477 * k * after + 3338477 * k
    ensures Term(excess, k) == after
  {
    ModUnique(before * excess, 3338477 * k, after, before * excess - 3338477 * k * after);
  }

  lemma Thrice(excess: nat, k: nat, first: nat, second: nat, third: nat)
    requires k > 0
    requires var before := Term(excess, k - 1);
             && 3338477 * k * first <= before * excess < 3338477 * k * first + 3338477 * k
             && 3338477 * (k + 1) * second <= first * excess < 3338477 * (k + 1) * second + 3338477 * (k + 1)
             && 3338477 * (k + 2) * third <= second * excess < 3338477 * (k + 2) * third + 3338477 * (k + 2)
    ensures Term(excess, k + 2) == third
  {
    OneTurnOf(excess, k, Term(excess, k - 1), first);
    OneTurnOf(excess, k + 1, first, second);
    OneTurnOf(excess, k + 2, second, third);
  }

  lemma FittingHalf()
    ensures Term(192204552, 30) == 806021680154014368406239749
  {
    var e := 192204552;
    Thrice(e, 1, 192204552, 5532850729, 106180063109);
    Thrice(e, 4, 1528263596034, 17597198951115, 168852530702569);
    Thrice(e, 7, 1388752374115225, 9994247672881721, 63932675373407086);
    Thrice(e, 10, 368076557912699164, 1926463362984008411, 9242613413909863684);
    Thrice(e, 13, 40932353528264440935, 168327068904381210941, 646067630404317527346);
    Thrice(e, 16, 2324734067801789356518, 7872988897085505263908, 25181547418599919213712);
    Thrice(e, 19, 76303435751325087200693, 219649074782366656888307, 602178664042933646047281);
    Thrice(e, 22, 1575861202392187300380113, 3944622137318664721116441, 9462577430674431708934823);
    Thrice(e, 25, 21791379192704819646448509, 48253258956058193467657374, 102891184393242262990428492);
    Thrice(e, 28, 211560904665002730560131467, 420003295347895833381785577, 806021680154014368406239749);
  }

  lemma FittingTerm()
    ensures Term(192204552, 57) == 1770417825027798933594767858039
  {
    var e := 192204552;
    FittingHalf();
    Thrice(e, 31, 1496925925246264966089706956, 2693181434595249640410201617, 4698583534757490792895699900);
    Thrice(e, 34, 7956156472588090022632923212, 13087314882596329518227544787, 20929715804644853459088123448);
    Thrice(e, 37, 32566935014355701054538010740, 49341070907540609005980286986, 72838206663175562833619183629);
    Thrice(e, 40, 104836987645706964221886400056, 147212930191854912939070823112, 201795718285205154144162363432);
    Thrice(e, 43, 270183467996530355499380095960, 353526013264019481536852444050, 452297453131785156778328664362);
    Thrice(e, 46, 566084926631904067651652979347, 693424230584070764424461207239, 831712169859165444380907722410);
    Thrice(e, 49, 977219797033618631239807034209, 1125220232425609629518491908595, 1270230793184802250285747081367);
    Thrice(e, 52, 1406353743273502176434412652601, 1527685597294851103710550520866, 1628754035342004132841456240743);
    Thrice(e, 55, 1704936056885721848805692937662, 1752812044675111923075305778507, 1770417825027798933594767858039);
  }

  lemma OverflowingHalf()
    ensures Term(192204553, 30) == 806021806026849369155817758
  {
    var e := 192204553;
    Thrice(e, 1, 192204553, 5532850787, 106180064775);
    Thrice(e, 4, 1528263627964, 17597199410328, 168852535987415);
    Thrice(e, 7, 1388752424806602, 9994248089683523, 63932678372294560);
    Thrice(e, 10, 368076577093076977, 1926463473394520363, 9242613991714914191);
    Thrice(e, 13, 40932356300126600462, 168327081178944921916, 646067680877514342188);
    Thrice(e, 16, 2324734261513732382523, 7872989594075594349379, 25181549778918668271851);
    Thrice(e, 19, 76303443300395445974890, 219649097656107132336681, 602178729885419795725838);
    Thrice(e, 22, 1575861382896436868107496, 3944622609671513628979832, 9462578613012345073959828);
    Thrice(e, 25, 21791382028887996154200860, 48253265487349360293099741, 102891198855338670785679337);
    Thrice(e, 28, 211560935502117549002730198, 420003358752760347158561900, 806021806026849369155817758);
  }

  lemma OverflowingTerm()
    ensures Term(192204553, 57) == 1770418350206210959935168393041
  {
    var e := 192204553;
    OverflowingHalf();
    Thrice(e, 31, 1496926166802748185696515637, 2693181883201584642894048147, 4698584341851713940029278551);
    Thrice(e, 34, 7956157880642685009178774093, 13087317266837154657296957963, 20929719726503507726374348355);
    Thrice(e, 37, 32566941286262430245076616350, 49341080666607427388916937244, 72838221448653525880880421706);
    Thrice(e, 40, 104837009472084601704673663323, 147212961606545818529109483374, 201795762397560759166862512599);
    Thrice(e, 43, 270183528464092458968478264305, 353526094223120218826968145552, 452297559063214246928229028193);
    Thrice(e, 46, 566085062158428067089273781489, 693424400204668952897599957754, 831712377634019847752066627567);
    Thrice(e, 49, 977220046242850712760938723890, 1125220525231993215420969641460, 1270231130334783203503498320937);
    Thrice(e, 52, 1406354123870772775806372006848, 1527686018676025427832686548149, 1628754493074931180213674926976);
    Thrice(e, 55, 1704936544898705405863113541276, 1752812555511412319003777328646, 1770418350206210959935168393041);
  }

  /** The largest products on either side of the bound. */
  lemma PeaksAtBound()
    ensures Peak(MIN_BLOB_GASPRICE, LARGEST_EXCESS, BLOB_GASPRICE_UPDATE_FRACTION) * LARGEST_EXCESS < TWO_128
    ensures Peak(MIN_BLOB_GASPRICE, LARGEST_EXCESS + 1, BLOB_GASPRICE_UPDATE_FRACTION) * (LARGEST_EXCESS + 1) >= TWO_128
  {
    FittingTerm();
    OverflowingTerm();
    assert Turns(LARGEST_EXCESS, BLOB_GASPRICE_UPDATE_FRACTION) == 57;
    assert Turns(LARGEST_EXCESS + 1, BLOB_GASPRICE_UPDATE_FRACTION) == 57;
  }

  // ----- In between -----

  lemma {:induction false} AccumulatorMonotone(
    factor: nat, numerator: nat, numerator': nat, denominator: nat, k: nat)
    requires denominator > 0 && numerator <= numerator'
    ensures Accumulator(factor, numerator, denominator, k) <= Accumulator(factor, numerator', denominator, k)
    decreases k
  {
    if k > 0 {
      AccumulatorMonotone(factor, numerator, numerator', denominator, k - 1);
      NextTermMonotone(Accumulator(factor, numerator, denominator, k - 1),
                       Accumulator(factor, numerator', denominator, k - 1), numerator, numerator', denominator, k);
    }
  }

  /** A larger numerator has the larger product at its peak. */
  lemma PeakMonotone(factor: nat, numerator: nat, numerator': nat, denominator: nat)
    requires denominator > 0 && numerator <= numerator'
    ensures Peak(factor, numerator, denominator) * numerator <= Peak(factor, numerator', denominator) * numerator'
  {
    var peak, peak' := Peak(factor, numerator, denominator), Peak(factor, numerator', denominator);
    AccumulatorMonotone(factor, numerator, numerator', denominator, Turns(numerator, denominator));
    PeakIsLargest(factor, numerator', denominator, Turns(numerator, denominator));
    MulMonotone(peak, peak', numerator);
    MulMonotone(numerator, numerator', peak');
  }

  lemma SeriesAtBound()
    ensures Series(BLOB_GASPRICE_UPDATE_FRACTION, LARGEST_EXCESS, BLOB_GASPRICE_UPDATE_FRACTION, 1) < TWO_128
  {
    PeaksAtBound();
    assert Turns(LARGEST_EXCESS, BLOB_GASPRICE_UPDATE_FRACTION) == 57;
    ProductDecides(MIN_BLOB_GASPRICE, LARGEST_EXCESS, BLOB_GASPRICE_UPDATE_FRACTION);
    FitsExactly(MIN_BLOB_GASPRICE, LARGEST_EXCESS, BLOB_GASPRICE_UPDATE_FRACTION);
  }

  /** For every 64-bit excess: the largest product and the sum fit exactly up to the bound. */
  lemma BlobPriceFits(excess: U64)
    ensures (&& Peak(MIN_BLOB_GASPRICE, excess, BLOB_GASPRICE_UPDATE_FRACTION) * excess < TWO_128
             && Series(BLOB_GASPRICE_UPDATE_FRACTION, excess, BLOB_GASPRICE_UPDATE_FRACTION, 1) < TWO_128)
            <==> excess <= LARGEST_EXCESS
  {
    PeaksAtBound();
    if excess <= LARGEST_EXCESS {
      PeakMonotone(MIN_BLOB_GASPRICE, excess, LARGEST_EXCESS, BLOB_GASPRICE_UPDATE_FRACTION);
      SeriesAtBound();
      SeriesMonotone(BLOB_GASPRICE_UPDATE_FRACTION, BLOB_GASPRICE_UPDATE_FRACTION, excess, LARGEST_EXCESS,
                     BLOB_GASPRICE_UPDATE_FRACTION, 1);
    } else {
      PeakMonotone(MIN_BLOB_GASPRICE, LARGEST_EXCESS + 1, excess, BLOB_GASPRICE_UPDATE_FRACTION);
    }
  }

  /** At the bound the loop stays within 128 bits, one above it does not. */
  lemma BlobPriceOverflows()
    ensures Fits128(BLOB_GASPRICE_UPDATE_FRACTION, 0, 1, LARGEST_EXCESS, BLOB_GASPRICE_UPDATE_FRACTION)
    ensures !Fits128(BLOB_GASPRICE_UPDATE_FRACTION, 0, 1, LARGEST_EXCESS + 1, BLOB_GASPRICE_UPDATE_FRACTION)
  {
    BlobPriceFits(LARGEST_EXCESS);
    BlobPriceFits(LARGEST_EXCESS + 1);
    FitsExactly(MIN_BLOB_GASPRICE, LARGEST_EXCESS, BLOB_GASPRICE_UPDATE_FRACTION);
    FitsExactly(MIN_BLOB_GASPRICE, LARGEST_EXCESS + 1, BLOB_GASPRICE_UPDATE_FRACTION);
  }

  /** The price, at least the minimum; there is one exactly up to the bound. */
  method CalcBlobGasprice(excess: U64) returns (price: Option<nat>)
    ensures price.Some? <==> excess <= LARGEST_EXCESS
    ensures price.Some? ==> price.value == FakeExponential(MIN_BLOB_GASPRICE, excess, BLOB_GASPRICE_UPDATE_FRACTION)
    ensures price.Some? ==> price.value >= MIN_BLOB_GASPRICE
  {
    price := ComputeFakeExponential(MIN_BLOB_GASPRICE, excess, BLOB_GASPRICE_UPDATE_FRACTION);
    BlobPriceFits(excess);
    AtLeastFactor(MIN_BLOB_GASPRICE, excess, BLOB_GASPRICE_UPDATE_FRACTION);
  }
}
