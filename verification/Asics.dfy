/**
 An ASIC of the configuration: the named integers, masks and gain vectors that the frame builders
 read.  Any field may hold any integer; the masks and the test word are unsigned 64-bit values.
 */
module Asics {

  /** The integer fields, by their names in the database. */
  datatype Field =
    | DIF_ID | ENABLED
    // read for both chips
    | ENOCDOUT1B | ENOCDOUT2B | ENOCTRANSMITON1B | ENOCTRANSMITON2B | ENOCCHIPSATB | SELSTARTREADOUT
    | SELENDREADOUT | SCON | RAZCHNEXTVAL | RAZCHNINTVAL | TRIGEXTVAL | ENTRIGOUT | TRIG0B | TRIG1B | TRIG2B
    | HEADER | RS_OR_DISCRI | EN_OTAQ | PWRONPA
    // HARDROC2 only
    | CLKMUX | DISCROROR | OTABGSW | DACSW | SMALLDAC | B2 | B1 | B0 | DISCRI1 | DISCRI2 | DISCRI0
    | OTAQ_PWRADC | SW50F0 | SW100F0 | SW100K0 | SW50K0 | PWRONFSB1 | PWRONFSB2 | PWRONFSB0 | SEL1 | SEL0
    | SW50F1 | SW100F1 | SW100K1 | SW50K1 | CMDB0FSB1 | CMDB1FSB1 | CMDB2FSB1 | CMDB3FSB1 | SW50F2 | SW100F2
    | SW100K2 | SW50K2 | CMDB0FSB2 | CMDB1FSB2 | CMDB2FSB2 | CMDB3FSB2 | PWRONW | PWRONSS | PWRONBUFF | SWSSC
    | CMDB0SS | CMDB1SS | CMDB2SS | CMDB3SS
    // MICROROC only
    | SELRAZ0 | SELRAZ1 | CKMUX | DISCOROR | PWRONDAC | ENPPDAC | PWRONBG | ENPPBANDGAP | DISCRI1_PP
    | DISCRI2_PP | DISCRI0_PP | ENPPOTAQ | ENPPDAC4BIT | SWHG | VALIDSH | PWRONWIDLAR | SWLG | PWRONSHLG
    | PWRONSHHG | ENGBST | BB2 | BB1 | BB0

  type Word64 = x: int | 0 <= x < 0x1_0000_0000_0000_0000

  /** One gain per channel. */
  type Gains = g: seq<int> | |g| == 64 witness seq(64, _ => 0)

  datatype Asic = Asic(
    ints: Field -> int,
    kind: string,
    mask0: Word64, mask1: Word64, mask2: Word64, ctest: Word64,
    pagain: Gains, b0b3: Gains)
  {
    function Int(f: Field): int {
      ints(f)
    }

    /** The mask of threshold `j`. */
    function Mask(j: nat): Word64
      requires j < 3
    {
      if j == 0 then mask0 else if j == 1 then mask1 else mask2
    }

    function WithInt(f: Field, v: int): (r: Asic)
      ensures forall g :: r.Int(g) == if g == f then v else Int(g)
    {
      this.(ints := g => if g == f then v else ints(g))
    }
  }
}
