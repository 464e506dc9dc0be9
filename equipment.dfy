/** Equipment kinds and body parts (Domain/Model/EquipmentType.swift, BodyPart.swift). */
module Equipment {

  /** The muscle group an exercise trains; its display labels are not part of this model. */
  datatype BodyPart = Shoulder | Back | Chest | Legs | Abs | Arms | CustomPart

  datatype EquipmentType = Machine | Cable | Barbell | Dumbbell | Bodyweight | Custom(name: string)

  /** Whether a set performed with this equipment must carry a weight greater than zero. */
  predicate RequiresPositiveWeight(equipment: EquipmentType) {
    match equipment
    case Bodyweight => false
    case _ => true
  }

  /** The Korean label shown in the log; a custom kind shows its own name. */
  function DisplayName(equipment: EquipmentType): string {
    match equipment
    case Machine => "머신"
    case Cable => "케이블"
    case Barbell => "바벨"
    case Dumbbell => "덤벨"
    case Bodyweight => "맨몸"
    case Custom(name) => name
  }

  /** Only bodyweight exercises may be logged without a positive weight. */
  lemma WeightPolicy(equipment: EquipmentType)
    ensures !RequiresPositiveWeight(equipment) <==> equipment == Bodyweight
    ensures forall name :: RequiresPositiveWeight(Custom(name))
  {
  }

  /** The five fixed kinds have their fixed labels, pairwise distinct; a custom kind shows its name. */
  lemma DisplayNames(name: string)
    ensures DisplayName(Machine) == "머신" && DisplayName(Cable) == "케이블"
    ensures DisplayName(Barbell) == "바벨" && DisplayName(Dumbbell) == "덤벨"
    ensures DisplayName(Bodyweight) == "맨몸"
    ensures DisplayName(Custom(name)) == name
    ensures forall a, b :: a in FixedKinds && b in FixedKinds && a != b ==> DisplayName(a) != DisplayName(b)
  {
  }

  const FixedKinds: set<EquipmentType> := {Machine, Cable, Barbell, Dumbbell, Bodyweight}
}
