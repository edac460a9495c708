/** Display labels and colours for class and slot values. */
module DestinyLabels {

  /** The armor slots of a report. */
  datatype ArmorSlot = Helmet | Gauntlets | Chest | Legs | ClassItem | UnknownSlot

  /** The label of a class value: the three playable classes by name, anything else "Unknown". */
  function ClassTypeLabel(classType: int): (r: string)
    ensures r in {"Titan", "Hunter", "Warlock", "Unknown"}
    ensures r == "Unknown" <==> classType !in {0, 1, 2}
    ensures classType == 0 <==> r == "Titan"
  {
    match classType
    case 0 => "Titan"
    case 1 => "Hunter"
    case 2 => "Warlock"
    case _ => "Unknown"
  }

  /** The label of a slot. */
  function SlotLabel(slot: ArmorSlot): (r: string)
    ensures r in {"Helmet", "Gauntlets", "Chest", "Legs", "Class Item", "Unknown"}
    ensures r == "Unknown" <==> slot == UnknownSlot
  {
    match slot
    case Helmet => "Helmet"
    case Gauntlets => "Gauntlets"
    case Chest => "Chest"
    case Legs => "Legs"
    case ClassItem => "Class Item"
    case UnknownSlot => "Unknown"
  }

  /** The colour class of a class value: one colour per playable class, grey for anything else. */
  function GetClassColor(classType: int): (r: string)
    ensures r in {"bg-red-400", "bg-blue-400", "bg-purple-400", "bg-gray-400"}
    ensures r == "bg-gray-400" <==> classType !in {0, 1, 2}
  {
    match classType
    case 0 => "bg-red-400"
    case 1 => "bg-blue-400"
    case 2 => "bg-purple-400"
    case _ => "bg-gray-400"
  }

  /** Distinct slots have distinct labels. */
  lemma SlotLabelInjective(a: ArmorSlot, b: ArmorSlot)
    ensures SlotLabel(a) == SlotLabel(b) ==> a == b
  {
  }

  /** Label and colour agree on which classes are known, and tell the known ones apart. */
  lemma LabelAndColorAgree(c: int, d: int)
    ensures ClassTypeLabel(c) == "Unknown" <==> GetClassColor(c) == "bg-gray-400"
    ensures ClassTypeLabel(c) == ClassTypeLabel(d) <==> GetClassColor(c) == GetClassColor(d)
  {
  }
}
