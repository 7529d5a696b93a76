/** The two colour classifiers of a drug card (DrugCard.tsx): the toxicity
    figure's colour and the development-phase badge. */
module DrugCard {
  import opened Assessment

  datatype ToxicityColour = Green | Yellow | Red

  /** `getToxicityColor`: below 20 green, below 40 yellow, else red. */
  function ToxicityColourFor(toxicity: int): ToxicityColour
  {
    if toxicity < 20 then Green
    else if toxicity < 40 then Yellow
    else Red
  }

  /** How alarming a colour is. */
  function Severity(colour: ToxicityColour): nat
  {
    match colour
    case Green => 0
    case Yellow => 1
    case Red => 2
  }

  /** Each colour covers one interval and together they cover every value. */
  lemma ToxicityColourBands(toxicity: int)
    ensures ToxicityColourFor(toxicity) == Green <==> toxicity < 20
    ensures ToxicityColourFor(toxicity) == Yellow <==> 20 <= toxicity < 40
    ensures ToxicityColourFor(toxicity) == Red <==> 40 <= toxicity
  {
  }

  /** A more toxic drug never gets a safer colour. */
  lemma ToxicityColourMonotone(t1: int, t2: int)
    requires t1 <= t2
    ensures Severity(ToxicityColourFor(t1)) <= Severity(ToxicityColourFor(t2))
  {
  }

  /** The card's bands (20/40) are stricter than the result panel's risk
      bands (25/50): the card is never less alarming than the panel, and
      the two disagree from 20 to 24 and from 40 to 49. */
  lemma CardIsStricterThanPanel(toxicity: int)
    ensures Severity(ToxicityColourFor(toxicity)) >= RiskRank(RiskFor(toxicity))
    ensures Severity(ToxicityColourFor(toxicity)) == RiskRank(RiskFor(toxicity))
        <==> !(20 <= toxicity < 25 || 40 <= toxicity < 50)
  {
  }

  datatype PhaseBadge = GreenBadge | BlueBadge | YellowBadge | GrayBadge

  /** `getPhaseColor`: a switch on the exact phase string. */
  function PhaseBadgeFor(phase: string): PhaseBadge
  {
    if phase == "FDA Approved" then GreenBadge
    else if phase == "Phase III" then BlueBadge
    else if phase == "Phase II" then YellowBadge
    else GrayBadge
  }

  /** Any phase outside the three named ones, including a differently
      spelled one, falls to the gray default: the switch is total. */
  lemma PhaseBadgeDefault(phase: string)
    ensures PhaseBadgeFor(phase) == GrayBadge
        <==> phase != "FDA Approved" && phase != "Phase III" && phase != "Phase II"
  {
  }
}
