/**
 * The fixed vocabulary of the bot: the three chemistry sections, the three
 * document kinds a topic can hold, and the "Назад" (back) button text.
 */
module Labels {
  import opened Wrappers

  /** The three document slots of a topic. */
  datatype FileType = Theory | Task | Homework

  const Back: string := "Назад"

  const TheoryLabel: string := "Теория"
  const TaskLabel: string := "Задание"
  const HomeworkLabel: string := "Домашнее задание"

  /** The button label of a document kind. */
  function LabelOf(ft: FileType): string
  {
    match ft
    case Theory => TheoryLabel
    case Task => TaskLabel
    case Homework => HomeworkLabel
  }

  /**
   * The label-to-slot mapping: the `column_map` lookup of delete_file_by_type,
   * the dictionary of receive_file and the if/elif chains of send_file and of
   * receive_file's insert path. A missing text (`None`) or any other text has
   * no slot.
   */
  function ParseFileType(text: Option<string>): (r: Option<FileType>)
    ensures r.Some? ==> text == Some(LabelOf(r.value))
    ensures forall ft: FileType :: text == Some(LabelOf(ft)) ==> r == Some(ft)
  {
    if text == Some(TheoryLabel) then Some(Theory)
    else if text == Some(TaskLabel) then Some(Task)
    else if text == Some(HomeworkLabel) then Some(Homework)
    else None
  }

  /** The sections offered by every section menu, in menu order. */
  function Sections(): (s: seq<string>)
    ensures |s| == 3
    ensures forall i, j :: 0 <= i < j < |s| ==> s[i] != s[j]
    ensures Back !in s
  {
    ["Органическая химия", "Неорганическая химия", "Общая химия"]
  }

  /** No document-kind button can be mistaken for the back button. */
  lemma BackIsNoFileType(ft: FileType)
    ensures ParseFileType(Some(Back)) == None
    ensures LabelOf(ft) != Back
  {
  }
}
