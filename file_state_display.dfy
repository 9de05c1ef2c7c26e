/** How an image's FileState is shown: a label and a chip colour, the same maps on the Home page and the group list. */
module FileStateDisplay {
  import opened Domain
  import opened Mud

  /** ImgFileStateColor. */
  function StateColor(state: FileState): (c: Color)
    ensures state.UndeclaredState? <==> c == Color.Default
  {
    match state
    case Ready => Color.Info
    case Detecting => Color.Warning
    case Done => Color.Success
    case Error => Color.Error
    case UndeclaredState => Color.Default
  }

  /** ImgFileStateLabel; a value with no name shows an em dash. */
  function StateLabel(state: FileState): (text: string)
    ensures |text| > 0
    ensures state.UndeclaredState? <==> text == "—"
  {
    match state
    case Ready => "Ready"
    case Detecting => "Detecting..."
    case Done => "Done"
    case Error => "Error"
    case UndeclaredState => "—"
  }

  /** Both maps tell the states apart: different states get different labels and different colours. */
  lemma DisplayTellsStatesApart(a: FileState, b: FileState)
    ensures StateLabel(a) == StateLabel(b) <==> a == b
    ensures StateColor(a) == StateColor(b) <==> a == b
  {
  }
}
