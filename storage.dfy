/**
 * The `topics` table: one row per (section, topic) with three optional file
 * columns, its read queries and its two writes (delete one file, upsert one
 * file). The table is a sequence of rows in rowid order, the order in which
 * SQLite returns them for a plain SELECT.
 */
module Storage {
  import opened Wrappers
  import opened Labels

  /** A row of `topics`; every column may hold SQL NULL (`None`). */
  datatype Row = Row(section: Option<string>, topic: Option<string>,
                     theory: Option<string>, task: Option<string>, homework: Option<string>)

  /** The three file columns of a row, the tuple that get_files_for_topic returns. */
  datatype Files = Files(theory: Option<string>, task: Option<string>, homework: Option<string>)

  /** Outcome codes of delete_file_by_type. */
  datatype DeleteOutcome = Deleted | NotFound | NoTopic | TopicRemoved

  /** What delete_file_by_type leaves behind: its code, the new table, and the stored file it removes from disk. */
  datatype Deletion = Deletion(outcome: DeleteOutcome, rows: seq<Row>, removed: Option<string>)

  function FilesOf(r: Row): Files
  {
    Files(r.theory, r.task, r.homework)
  }

  /** The slot of a document kind: 0 theory, 1 task, 2 homework. */
  function Slot(f: Files, ft: FileType): Option<string>
  {
    match ft
    case Theory => f.theory
    case Task => f.task
    case Homework => f.homework
  }

  /** A row with the column of `ft` set to `v`. */
  function WithSlot(r: Row, ft: FileType, v: Option<string>): (r': Row)
    ensures r'.section == r.section && r'.topic == r.topic
    ensures Slot(FilesOf(r'), ft) == v
    ensures forall other :: other != ft ==> Slot(FilesOf(r'), other) == Slot(FilesOf(r), other)
  {
    match ft
    case Theory => r.(theory := v)
    case Task => r.(task := v)
    case Homework => r.(homework := v)
  }

  /** Python truthiness of a column value: NULL and the empty string are both false. */
  predicate Truthy(v: Option<string>)
  {
    v.Some? && v.value != ""
  }

  /** SQL `column = ?`: NULL on either side never compares equal. */
  predicate SqlEq(column: Option<string>, param: Option<string>)
  {
    column.Some? && param.Some? && column.value == param.value
  }

  /** `WHERE section = ? AND topic = ?` */
  predicate Matches(r: Row, section: Option<string>, topic: Option<string>)
  {
    SqlEq(r.section, section) && SqlEq(r.topic, topic)
  }

  /** `theory_file IS NOT NULL OR task_file IS NOT NULL OR homework_file IS NOT NULL` */
  predicate HasFile(r: Row): (b: bool)
    ensures b <==> exists ft :: Slot(FilesOf(r), ft).Some?
  {
    assert r.theory.Some? ==> Slot(FilesOf(r), Theory).Some?;
    assert r.task.Some? ==> Slot(FilesOf(r), Task).Some?;
    assert r.homework.Some? ==> Slot(FilesOf(r), Homework).Some?;
    r.theory.Some? || r.task.Some? || r.homework.Some?
  }

  /** At least one file column is truthy: the negation of `not theory and not task and not hw` in delete_file_by_type. */
  predicate HoldsFile(r: Row)
  {
    Truthy(r.theory) || Truthy(r.task) || Truthy(r.homework)
  }

  predicate SameKey(a: Row, b: Row)
  {
    SqlEq(a.section, b.section) && SqlEq(a.topic, b.topic)
  }

  /** No two rows share a (section, topic) key. */
  ghost predicate UniqueKeys(rows: seq<Row>)
  {
    forall i, j :: 0 <= i < j < |rows| ==> !SameKey(rows[i], rows[j])
  }

  /** The table's intended invariant: unique keys, and no row without a file. */
  ghost predicate WellFormed(rows: seq<Row>)
  {
    UniqueKeys(rows) && forall i :: 0 <= i < |rows| ==> HoldsFile(rows[i])
  }

  // ---------------------------------------------------------------------------
  // Read queries

  /** get_topics_by_section: the topic of every row of the section that holds a non-NULL file, in table order. */
  function TopicsBySection(rows: seq<Row>, section: Option<string>): (topics: seq<Option<string>>)
    ensures |topics| <= |rows|
    ensures forall t :: t in topics <==>
              exists i :: 0 <= i < |rows| && SqlEq(rows[i].section, section) && HasFile(rows[i]) && rows[i].topic == t
  {
    if rows == [] then []
    else
      var rest := TopicsBySection(rows[1..], section);
      assert forall i :: 1 <= i < |rows| ==> rows[i] == rows[1..][i - 1];
      (if SqlEq(rows[0].section, section) && HasFile(rows[0]) then [rows[0].topic] else []) + rest
  }

  /** The listing of a table made of two parts is the listing of the first part followed by that of the second. */
  lemma {:induction false} TopicsBySectionAppend(a: seq<Row>, b: seq<Row>, section: Option<string>)
    ensures TopicsBySection(a + b, section) == TopicsBySection(a, section) + TopicsBySection(b, section)
  {
    if a != [] {
      assert (a + b)[0] == a[0];
      assert (a + b)[1..] == a[1..] + b;
      TopicsBySectionAppend(a[1..], b, section);
      var head := if SqlEq(a[0].section, section) && HasFile(a[0]) then [a[0].topic] else [];
      assert TopicsBySection(a + b, section) == head + TopicsBySection(a[1..] + b, section);
      assert TopicsBySection(a, section) == head + TopicsBySection(a[1..], section);
    } else {
      assert a + b == b;
    }
  }

  /** `SELECT ... WHERE section = ? AND topic = ?` followed by `fetchone()`: the index of the first matching row. */
  function FirstMatch(rows: seq<Row>, section: Option<string>, topic: Option<string>): (r: Option<nat>)
    ensures r.Some? ==> r.value < |rows| && Matches(rows[r.value], section, topic)
    ensures r.Some? ==> forall j :: 0 <= j < r.value ==> !Matches(rows[j], section, topic)
    ensures r.None? <==> forall j :: 0 <= j < |rows| ==> !Matches(rows[j], section, topic)
  {
    if rows == [] then None
    else if Matches(rows[0], section, topic) then Some(0)
    else
      match FirstMatch(rows[1..], section, topic)
      case None =>
        assert forall j :: 1 <= j < |rows| ==> rows[j] == rows[1..][j - 1];
        None
      case Some(k) =>
        assert forall j :: 1 <= j <= k + 1 ==> rows[j] == rows[1..][j - 1];
        Some(k + 1)
  }

  /** Under unique keys, every matching row is the first one. */
  lemma MatchIsFirst(rows: seq<Row>, section: Option<string>, topic: Option<string>, i: nat)
    requires UniqueKeys(rows)
    requires i < |rows| && Matches(rows[i], section, topic)
    ensures FirstMatch(rows, section, topic) == Some(i)
  {
    var f := FirstMatch(rows, section, topic);
    assert f.Some?;
    if f.value < i {
      assert SameKey(rows[f.value], rows[i]);
    }
  }

  /** The first row whose topic column equals `topic`, whatever its section. */
  function FirstWithTopic(rows: seq<Row>, topic: Option<string>): (r: Option<nat>)
    ensures r.Some? ==> r.value < |rows| && SqlEq(rows[r.value].topic, topic)
    ensures r.Some? ==> forall j :: 0 <= j < r.value ==> !SqlEq(rows[j].topic, topic)
    ensures r.None? <==> forall j :: 0 <= j < |rows| ==> !SqlEq(rows[j].topic, topic)
  {
    if rows == [] then None
    else if SqlEq(rows[0].topic, topic) then Some(0)
    else
      match FirstWithTopic(rows[1..], topic)
      case None =>
        assert forall j :: 1 <= j < |rows| ==> rows[j] == rows[1..][j - 1];
        None
      case Some(k) =>
        assert forall j :: 1 <= j <= k + 1 ==> rows[j] == rows[1..][j - 1];
        Some(k + 1)
  }

  /**
   * get_files_for_topic as written: the files of the first row with this topic
   * name in ANY section, or `None` when no row has it.
   */
  function FilesForTopic(rows: seq<Row>, topic: Option<string>): (r: Option<Files>)
    ensures r.None? <==> forall j :: 0 <= j < |rows| ==> !SqlEq(rows[j].topic, topic)
    ensures r.Some? ==> exists i :: && 0 <= i < |rows| && SqlEq(rows[i].topic, topic) && r.value == FilesOf(rows[i])
                                    && forall j :: 0 <= j < i ==> !SqlEq(rows[j].topic, topic)
  {
    match FirstWithTopic(rows, topic)
    case None => None
    case Some(i) => Some(FilesOf(rows[i]))
  }

  /**
   * The lookup the retrieval dialogue needs: the files of the row with key
   * (section, topic), or `None` when there is none. Under unique keys it is
   * the files of THE row with that key.
   */
  function FilesForKey(rows: seq<Row>, section: Option<string>, topic: Option<string>): (r: Option<Files>)
    ensures r.None? <==> forall j :: 0 <= j < |rows| ==> !Matches(rows[j], section, topic)
    ensures UniqueKeys(rows) ==>
              forall i :: 0 <= i < |rows| && Matches(rows[i], section, topic) ==> r == Some(FilesOf(rows[i]))
  {
    match FirstMatch(rows, section, topic)
    case None => None
    case Some(i) =>
      assert UniqueKeys(rows) ==>
        forall k :: 0 <= k < |rows| && Matches(rows[k], section, topic) ==> k == i by {
        if UniqueKeys(rows) {
          forall k | 0 <= k < |rows| && Matches(rows[k], section, topic) ensures k == i {
            MatchIsFirst(rows, section, topic, k);
          }
        }
      }
      Some(FilesOf(rows[i]))
  }

  /** Every topic the section menu lists can be resolved to a row of that section. */
  lemma ListedTopicResolves(rows: seq<Row>, section: Option<string>, topic: string)
    requires Some(topic) in TopicsBySection(rows, section)
    ensures FilesForKey(rows, section, Some(topic)).Some?
    ensures FilesForTopic(rows, Some(topic)).Some?
  {
    var i :| 0 <= i < |rows| && SqlEq(rows[i].section, section) && HasFile(rows[i]) && rows[i].topic == Some(topic);
    assert Matches(rows[i], section, Some(topic));
  }

  /**
   * The as-written lookup can answer with another section's files: two
   * sections hold a topic of the same name, and the lookup made for the
   * second section returns the first section's theory file.
   */
  lemma FilesForTopicIgnoresSection()
    ensures var rows := [Row(Some("Органическая химия"), Some("Кислоты"), Some("org.pdf"), None, None),
                         Row(Some("Общая химия"), Some("Кислоты"), Some("gen.pdf"), None, None)];
            && WellFormed(rows)
            && FilesForTopic(rows, Some("Кислоты")) == Some(Files(Some("org.pdf"), None, None))
            && FilesForKey(rows, Some("Общая химия"), Some("Кислоты")) == Some(Files(Some("gen.pdf"), None, None))
  {
    var rows := [Row(Some("Органическая химия"), Some("Кислоты"), Some("org.pdf"), None, None),
                 Row(Some("Общая химия"), Some("Кислоты"), Some("gen.pdf"), None, None)];
    assert !SameKey(rows[0], rows[1]);
    assert FirstMatch(rows, Some("Общая химия"), Some("Кислоты")) == Some(1);
  }

  // ---------------------------------------------------------------------------
  // delete_file_by_type

  /** `UPDATE topics SET <column> = NULL WHERE section = ? AND topic = ?` */
  function ClearSlot(rows: seq<Row>, section: Option<string>, topic: Option<string>, ft: FileType): (r: seq<Row>)
    ensures |r| == |rows|
    ensures forall i :: 0 <= i < |rows| && !Matches(rows[i], section, topic) ==> r[i] == rows[i]
    ensures forall i :: 0 <= i < |rows| && Matches(rows[i], section, topic) ==>
              && r[i].section == rows[i].section && r[i].topic == rows[i].topic
              && Slot(FilesOf(r[i]), ft) == None
              && forall other :: other != ft ==> Slot(FilesOf(r[i]), other) == Slot(FilesOf(rows[i]), other)
  {
    seq(|rows|, i requires 0 <= i < |rows| =>
      if Matches(rows[i], section, topic) then WithSlot(rows[i], ft, None) else rows[i])
  }

  /** `DELETE FROM topics WHERE section = ? AND topic = ?`: the other rows, in order. */
  function RemoveMatching(rows: seq<Row>, section: Option<string>, topic: Option<string>): (r: seq<Row>)
    ensures |r| <= |rows|
    ensures forall x :: x in r <==> x in rows && !Matches(x, section, topic)
  {
    if rows == [] then []
    else (if Matches(rows[0], section, topic) then [] else [rows[0]]) + RemoveMatching(rows[1..], section, topic)
  }

  /**
   * delete_file_by_type: an unknown label is `not_found`; no row with the key
   * is `no_topic`; a falsy slot in the first matching row is `not_found`.
   * Otherwise the slot is nulled in every matching row, and when the first
   * matching row is then left without a truthy slot every matching row is
   * deleted (`topic_removed`), else `deleted`.
   */
  function DeleteEffect(rows: seq<Row>, section: Option<string>, topic: Option<string>, fileType: Option<string>): (d: Deletion)
    ensures |d.rows| <= |rows|
    ensures d.removed.Some? <==> d.outcome in {Deleted, TopicRemoved}
    ensures d.outcome == Deleted ==> |d.rows| == |rows|
  {
    match ParseFileType(fileType)
    case None => Deletion(NotFound, rows, None)
    case Some(ft) =>
      match FirstMatch(rows, section, topic)
      case None => Deletion(NoTopic, rows, None)
      case Some(i) =>
        var target := Slot(FilesOf(rows[i]), ft);
        if !Truthy(target) then Deletion(NotFound, rows, None)
        else
          var cleared := ClearSlot(rows, section, topic, ft);
          if !HoldsFile(cleared[i]) then Deletion(TopicRemoved, RemoveMatching(cleared, section, topic), target)
          else Deletion(Deleted, cleared, target)
  }

  /** The outcome of a deletion, read off the files that the key's row held before it. */
  lemma DeleteOutcomeByFiles(rows: seq<Row>, section: Option<string>, topic: Option<string>, fileType: Option<string>)
    ensures var d := DeleteEffect(rows, section, topic, fileType);
            var files := FilesForKey(rows, section, topic);
            && (ParseFileType(fileType).None? ==> d == Deletion(NotFound, rows, None))
            && (ParseFileType(fileType).Some? && files.None? ==> d == Deletion(NoTopic, rows, None))
            && (ParseFileType(fileType).Some? && files.Some? ==>
                  var ft := ParseFileType(fileType).value;
                  var target := Slot(files.value, ft);
                  && (!Truthy(target) ==> d == Deletion(NotFound, rows, None))
                  && (Truthy(target) ==>
                        && d.removed == target
                        && d.outcome == (if forall other :: other != ft ==> !Truthy(Slot(files.value, other))
                                         then TopicRemoved else Deleted)))
  {
    match ParseFileType(fileType)
    case None =>
    case Some(ft) =>
      match FirstMatch(rows, section, topic)
      case None =>
      case Some(i) =>
        var cleared := ClearSlot(rows, section, topic, ft);
        var after := WithSlot(rows[i], ft, None);
        assert cleared[i] == after;
        assert HoldsFile(after) <==> exists other :: Truthy(Slot(FilesOf(after), other)) by {
          assert Slot(FilesOf(after), Theory) == after.theory;
          assert Slot(FilesOf(after), Task) == after.task;
          assert Slot(FilesOf(after), Homework) == after.homework;
        }
  }

  /** Keys are left as they were when a slot is cleared. */
  lemma ClearSlotKeepsKeys(rows: seq<Row>, section: Option<string>, topic: Option<string>, ft: FileType)
    ensures var cleared := ClearSlot(rows, section, topic, ft);
            |cleared| == |rows| &&
            forall i :: 0 <= i < |rows| ==> cleared[i].section == rows[i].section && cleared[i].topic == rows[i].topic
  {
  }

  /** Clearing a slot of the matching rows does not move the first match. */
  lemma ClearSlotKeepsFirstMatch(rows: seq<Row>, section: Option<string>, topic: Option<string>, ft: FileType)
    ensures FirstMatch(ClearSlot(rows, section, topic, ft), section, topic) == FirstMatch(rows, section, topic)
  {
    var cleared := ClearSlot(rows, section, topic, ft);
    ClearSlotKeepsKeys(rows, section, topic, ft);
    assert forall j :: 0 <= j < |rows| ==> (Matches(cleared[j], section, topic) <==> Matches(rows[j], section, topic));
  }

  /** Under unique keys the UPDATE touches the one row with the key. */
  lemma ClearSlotUnique(rows: seq<Row>, section: Option<string>, topic: Option<string>, ft: FileType, i: nat)
    requires UniqueKeys(rows)
    requires i < |rows| && Matches(rows[i], section, topic)
    ensures ClearSlot(rows, section, topic, ft) == rows[i := WithSlot(rows[i], ft, None)]
  {
    var cleared := ClearSlot(rows, section, topic, ft);
    forall j | 0 <= j < |rows| && j != i ensures !Matches(rows[j], section, topic) {
      if Matches(rows[j], section, topic) {
        if j < i { assert SameKey(rows[j], rows[i]); } else { assert SameKey(rows[i], rows[j]); }
      }
    }
  }

  /** One step of the DELETE scan: the rows from `k` on are row `k`, if kept, then the rows after it. */
  lemma RemoveMatchingFrom(rows: seq<Row>, section: Option<string>, topic: Option<string>, k: nat)
    requires k < |rows|
    ensures RemoveMatching(rows[k..], section, topic)
            == (if Matches(rows[k], section, topic) then [] else [rows[k]]) + RemoveMatching(rows[k + 1..], section, topic)
  {
    assert rows[k..][0] == rows[k] && rows[k..][1..] == rows[k + 1..];
  }

  /** The DELETE scan's invariant carried over one row. */
  lemma RemoveMatchingStep(rows: seq<Row>, section: Option<string>, topic: Option<string>, k: nat, kept: seq<Row>)
    requires k < |rows|
    requires kept + RemoveMatching(rows[k..], section, topic) == RemoveMatching(rows, section, topic)
    ensures (kept + (if Matches(rows[k], section, topic) then [] else [rows[k]])) + RemoveMatching(rows[k + 1..], section, topic)
            == RemoveMatching(rows, section, topic)
  {
    var head := if Matches(rows[k], section, topic) then [] else [rows[k]];
    var rest := RemoveMatching(rows[k + 1..], section, topic);
    RemoveMatchingFrom(rows, section, topic, k);
    SeqAssoc(kept, head, rest);
  }

  lemma SeqAssoc<T>(a: seq<T>, b: seq<T>, c: seq<T>)
    ensures (a + b) + c == a + (b + c)
  {
  }

  /** Removing the rows with a key keeps the other rows unique. */
  lemma {:induction false} RemoveMatchingKeepsUnique(rows: seq<Row>, section: Option<string>, topic: Option<string>)
    requires UniqueKeys(rows)
    ensures UniqueKeys(RemoveMatching(rows, section, topic))
  {
    if rows != [] {
      var rest := RemoveMatching(rows[1..], section, topic);
      assert UniqueKeys(rows[1..]) by {
        forall i, j | 0 <= i < j < |rows| - 1 ensures !SameKey(rows[1..][i], rows[1..][j]) {
          assert rows[1..][i] == rows[i + 1] && rows[1..][j] == rows[j + 1];
        }
      }
      RemoveMatchingKeepsUnique(rows[1..], section, topic);
      if !Matches(rows[0], section, topic) {
        var r := [rows[0]] + rest;
        forall i, j | 0 <= i < j < |r| ensures !SameKey(r[i], r[j]) {
          if i == 0 {
            assert r[j] == rest[j - 1];
            assert r[j] in rows[1..];
            var k :| 0 <= k < |rows[1..]| && rows[1..][k] == r[j];
            assert rows[k + 1] == r[j];
          } else {
            assert r[i] == rest[i - 1] && r[j] == rest[j - 1];
          }
        }
      }
    }
  }

  /** Removing the rows with a key again changes nothing. */
  lemma {:induction false} RemoveMatchingTwice(rows: seq<Row>, section: Option<string>, topic: Option<string>)
    ensures RemoveMatching(RemoveMatching(rows, section, topic), section, topic) == RemoveMatching(rows, section, topic)
  {
    if rows != [] {
      RemoveMatchingTwice(rows[1..], section, topic);
      var rest := RemoveMatching(rows[1..], section, topic);
      if !Matches(rows[0], section, topic) {
        var once := [rows[0]] + rest;
        assert RemoveMatching(rows, section, topic) == once;
        assert once[0] == rows[0] && once[1..] == rest;
        assert RemoveMatching(once, section, topic) == [rows[0]] + RemoveMatching(rest, section, topic);
      } else {
        assert RemoveMatching(rows, section, topic) == [] + rest;
        assert [] + rest == rest;
      }
    }
  }

  /** The rows with other keys are the same before and after the UPDATE. */
  lemma {:induction false} ClearSlotKeepsOthers(rows: seq<Row>, section: Option<string>, topic: Option<string>, ft: FileType)
    ensures RemoveMatching(ClearSlot(rows, section, topic, ft), section, topic) == RemoveMatching(rows, section, topic)
  {
    if rows != [] {
      var cleared := ClearSlot(rows, section, topic, ft);
      assert cleared[1..] == ClearSlot(rows[1..], section, topic, ft);
      ClearSlotKeepsOthers(rows[1..], section, topic, ft);
    }
  }

  /** Replacing one row by another row with the same key leaves the rows with other keys alone. */
  lemma {:induction false} ReplaceMatchingKeepsOthers(rows: seq<Row>, section: Option<string>, topic: Option<string>, i: nat, x: Row)
    requires i < |rows| && Matches(rows[i], section, topic) && Matches(x, section, topic)
    ensures RemoveMatching(rows[i := x], section, topic) == RemoveMatching(rows, section, topic)
  {
    if i > 0 {
      assert rows[i := x][1..] == rows[1..][i - 1 := x];
      ReplaceMatchingKeepsOthers(rows[1..], section, topic, i - 1, x);
    } else {
      assert rows[i := x][1..] == rows[1..];
    }
  }

  /** delete_file_by_type never modifies, removes or reorders a row with a different key. */
  lemma DeleteKeepsOtherRows(rows: seq<Row>, section: Option<string>, topic: Option<string>, fileType: Option<string>)
    ensures RemoveMatching(DeleteEffect(rows, section, topic, fileType).rows, section, topic)
            == RemoveMatching(rows, section, topic)
  {
    match ParseFileType(fileType)
    case None =>
    case Some(ft) =>
      match FirstMatch(rows, section, topic)
      case None =>
      case Some(i) =>
        ClearSlotKeepsOthers(rows, section, topic, ft);
        RemoveMatchingTwice(ClearSlot(rows, section, topic, ft), section, topic);
  }

  /** Only a deletion that succeeds changes the table or removes a stored file. */
  lemma DeleteUnchangedUnlessRemoved(rows: seq<Row>, section: Option<string>, topic: Option<string>, fileType: Option<string>)
    ensures var d := DeleteEffect(rows, section, topic, fileType);
            && ((d.outcome == NotFound || d.outcome == NoTopic) <==> (d.rows == rows && d.removed == None))
            && (d.outcome in {Deleted, TopicRemoved} ==> d.rows != rows && Truthy(d.removed))
  {
    var d := DeleteEffect(rows, section, topic, fileType);
    if d.outcome in {Deleted, TopicRemoved} {
      var ft := ParseFileType(fileType).value;
      var i := FirstMatch(rows, section, topic).value;
      var cleared := ClearSlot(rows, section, topic, ft);
      if d.outcome == Deleted {
        assert Slot(FilesOf(d.rows[i]), ft) != Slot(FilesOf(rows[i]), ft);
      } else {
        assert Matches(cleared[i], section, topic);
        RemoveMatchingShrinks(cleared, section, topic, i);
      }
    }
  }

  /** The `DELETE` removes at least one row when some row matches. */
  lemma {:induction false} RemoveMatchingShrinks(rows: seq<Row>, section: Option<string>, topic: Option<string>, i: nat)
    requires i < |rows| && Matches(rows[i], section, topic)
    ensures |RemoveMatching(rows, section, topic)| < |rows|
  {
    if i > 0 {
      RemoveMatchingShrinks(rows[1..], section, topic, i - 1);
    }
  }

  /**
   * With unique keys, after `deleted` the key's row holds its old files minus
   * the deleted one; after `topic_removed` no row has the key.
   */
  lemma DeleteResultRow(rows: seq<Row>, section: Option<string>, topic: Option<string>, fileType: Option<string>)
    requires UniqueKeys(rows)
    ensures var d := DeleteEffect(rows, section, topic, fileType);
            && (d.outcome == TopicRemoved ==> FilesForKey(d.rows, section, topic) == None)
            && (d.outcome == Deleted ==>
                  var before := FilesForKey(rows, section, topic);
                  var ft := ParseFileType(fileType).value;
                  && before.Some?
                  && FilesForKey(d.rows, section, topic).Some?
                  && Slot(FilesForKey(d.rows, section, topic).value, ft) == None
                  && forall other :: other != ft ==>
                       Slot(FilesForKey(d.rows, section, topic).value, other) == Slot(before.value, other))
  {
    match ParseFileType(fileType)
    case None =>
    case Some(ft) =>
      match FirstMatch(rows, section, topic)
      case None =>
      case Some(i) =>
        var cleared := ClearSlot(rows, section, topic, ft);
        ClearSlotKeepsFirstMatch(rows, section, topic, ft);
        var d := DeleteEffect(rows, section, topic, fileType);
        if d.outcome == TopicRemoved {
          assert forall x :: x in d.rows ==> !Matches(x, section, topic);
          assert forall j :: 0 <= j < |d.rows| ==> d.rows[j] in d.rows;
        }
  }

  /** Unique keys and "no row without a file" both survive a deletion. */
  lemma DeletePreservesWellFormed(rows: seq<Row>, section: Option<string>, topic: Option<string>, fileType: Option<string>)
    requires WellFormed(rows)
    ensures WellFormed(DeleteEffect(rows, section, topic, fileType).rows)
  {
    match ParseFileType(fileType)
    case None =>
    case Some(ft) =>
      match FirstMatch(rows, section, topic)
      case None =>
      case Some(i) =>
        if Truthy(Slot(FilesOf(rows[i]), ft)) {
          var cleared := ClearSlot(rows, section, topic, ft);
          ClearSlotUnique(rows, section, topic, ft, i);
          assert UniqueKeys(cleared) by {
            forall a, b | 0 <= a < b < |cleared| ensures !SameKey(cleared[a], cleared[b]) {
              assert !SameKey(rows[a], rows[b]);
            }
          }
          if !HoldsFile(cleared[i]) {
            var kept := RemoveMatching(cleared, section, topic);
            RemoveMatchingKeepsUnique(cleared, section, topic);
            forall j | 0 <= j < |kept| ensures HoldsFile(kept[j]) {
              assert kept[j] in cleared;
              var k :| 0 <= k < |cleared| && cleared[k] == kept[j];
              assert k != i;
            }
          }
        }
  }

  /**
   * Repeating a deletion that succeeded never succeeds again: the slot is
   * NULL now (`not_found`) or the topic is gone (`no_topic`), and the table
   * stays as it is.
   */
  lemma DeleteTwice(rows: seq<Row>, section: Option<string>, topic: Option<string>, fileType: Option<string>)
    requires DeleteEffect(rows, section, topic, fileType).outcome in {Deleted, TopicRemoved}
    ensures var once := DeleteEffect(rows, section, topic, fileType);
            var twice := DeleteEffect(once.rows, section, topic, fileType);
            && twice.outcome == (if once.outcome == Deleted then NotFound else NoTopic)
            && twice.rows == once.rows
  {
    var ft := ParseFileType(fileType).value;
    var i := FirstMatch(rows, section, topic).value;
    var cleared := ClearSlot(rows, section, topic, ft);
    ClearSlotKeepsFirstMatch(rows, section, topic, ft);
    var once := DeleteEffect(rows, section, topic, fileType);
    if once.outcome == TopicRemoved {
      assert forall x :: x in once.rows ==> !Matches(x, section, topic);
      assert forall j :: 0 <= j < |once.rows| ==> once.rows[j] in once.rows;
      assert FirstMatch(once.rows, section, topic) == None;
    } else {
      assert once.rows == cleared;
      assert Slot(FilesOf(cleared[i]), ft) == None;
    }
  }

  // ---------------------------------------------------------------------------
  // The upsert of receive_file

  /** The row INSERTed for a new key: the slot of the recognised label holds the name, the rest are NULL. */
  function NewRow(section: Option<string>, topic: Option<string>, fileType: Option<string>, filename: string): (r: Row)
    ensures r.section == section && r.topic == topic
    ensures forall ft :: Slot(FilesOf(r), ft) == (if ParseFileType(fileType) == Some(ft) then Some(filename) else None)
  {
    var empty := Row(section, topic, None, None, None);
    match ParseFileType(fileType)
    case None => empty
    case Some(ft) => WithSlot(empty, ft, Some(filename))
  }

  /**
   * receive_file's table write as written. With a row for the key, the
   * label's column of that row is set, and an unknown label fails the
   * dictionary lookup (`None`: the KeyError, nothing written). Without a row,
   * a row is appended, and an unknown label appends a row with three NULLs.
   */
  function UpsertAsWritten(rows: seq<Row>, section: Option<string>, topic: Option<string>,
                           fileType: Option<string>, filename: string): (r: Option<seq<Row>>)
    ensures r.None? <==> FirstMatch(rows, section, topic).Some? && ParseFileType(fileType).None?
    ensures r.Some? ==> |r.value| == |rows| + (if FirstMatch(rows, section, topic).None? then 1 else 0)
  {
    match FirstMatch(rows, section, topic)
    case Some(i) =>
      (match ParseFileType(fileType)
       case None => None
       case Some(ft) => Some(rows[i := WithSlot(rows[i], ft, Some(filename))]))
    case None => Some(rows + [NewRow(section, topic, fileType, filename)])
  }

  /**
   * The upsert with an unknown label refused on both paths, as the update path
   * already does. Otherwise it is the upsert as written.
   */
  function UpsertEffect(rows: seq<Row>, section: Option<string>, topic: Option<string>,
                        fileType: Option<string>, filename: string): (r: Option<seq<Row>>)
    ensures r.Some? <==> ParseFileType(fileType).Some?
    ensures r.Some? ==> r == UpsertAsWritten(rows, section, topic, fileType, filename)
  {
    if ParseFileType(fileType).None? then None else UpsertAsWritten(rows, section, topic, fileType, filename)
  }

  /**
   * Upload for a key that has a row: the row count is unchanged, the rows with
   * other keys are untouched, and the key's files are the old ones with only
   * the chosen slot replaced by the new name.
   */
  lemma UpsertExisting(rows: seq<Row>, section: Option<string>, topic: Option<string>, fileType: Option<string>, filename: string)
    requires UniqueKeys(rows)
    requires FilesForKey(rows, section, topic).Some?
    ensures var r := UpsertAsWritten(rows, section, topic, fileType, filename);
            && (ParseFileType(fileType).None? ==> r == None)
            && (ParseFileType(fileType).Some? ==>
                  var ft := ParseFileType(fileType).value;
                  var before := FilesForKey(rows, section, topic).value;
                  && r.Some?
                  && |r.value| == |rows|
                  && RemoveMatching(r.value, section, topic) == RemoveMatching(rows, section, topic)
                  && FilesForKey(r.value, section, topic).Some?
                  && Slot(FilesForKey(r.value, section, topic).value, ft) == Some(filename)
                  && forall other :: other != ft ==>
                       Slot(FilesForKey(r.value, section, topic).value, other) == Slot(before, other))
  {
    var i := FirstMatch(rows, section, topic).value;
    if ParseFileType(fileType).Some? {
      var ft := ParseFileType(fileType).value;
      var x := WithSlot(rows[i], ft, Some(filename));
      var r := rows[i := x];
      ReplaceMatchingKeepsOthers(rows, section, topic, i, x);
      assert forall j :: 0 <= j < |r| ==> (Matches(r[j], section, topic) <==> Matches(rows[j], section, topic));
      assert FirstMatch(r, section, topic) == Some(i);
    }
  }

  /**
   * Upload for a key without a row: exactly one row is appended after the
   * others, holding the key, the name in the chosen slot and NULL elsewhere
   * (NULL everywhere when the label is unknown, as written).
   */
  lemma UpsertFresh(rows: seq<Row>, section: Option<string>, topic: Option<string>, fileType: Option<string>, filename: string)
    requires FilesForKey(rows, section, topic).None?
    ensures var r := UpsertAsWritten(rows, section, topic, fileType, filename);
            && r.Some?
            && |r.value| == |rows| + 1
            && r.value[..|rows|] == rows
            && var added := r.value[|rows|];
            && added.section == section && added.topic == topic
            && forall ft :: Slot(FilesOf(added), ft) == (if ParseFileType(fileType) == Some(ft) then Some(filename) else None)
  {
    var r := UpsertAsWritten(rows, section, topic, fileType, filename).value;
    assert r[..|rows|] == rows;
  }

  /** The upsert as written never gives a second row an existing key. */
  lemma UpsertKeepsKeysUnique(rows: seq<Row>, section: Option<string>, topic: Option<string>, fileType: Option<string>, filename: string)
    requires UniqueKeys(rows)
    ensures var r := UpsertAsWritten(rows, section, topic, fileType, filename);
            r.Some? ==> UniqueKeys(r.value)
  {
    var r := UpsertAsWritten(rows, section, topic, fileType, filename);
    match FirstMatch(rows, section, topic)
    case Some(i) =>
      if r.Some? {
        forall a, b | 0 <= a < b < |r.value| ensures !SameKey(r.value[a], r.value[b]) {
          assert !SameKey(rows[a], rows[b]);
        }
      }
    case None =>
      var added := NewRow(section, topic, fileType, filename);
      forall a, b | 0 <= a < b < |r.value| ensures !SameKey(r.value[a], r.value[b]) {
        if b == |rows| {
          assert r.value[a] == rows[a] && r.value[b] == added;
          assert !Matches(rows[a], section, topic);
        } else {
          assert r.value[a] == rows[a] && r.value[b] == rows[b];
        }
      }
  }

  /** The corrected upsert keeps the table well formed whenever the stored name is non-empty. */
  lemma UpsertPreservesWellFormed(rows: seq<Row>, section: Option<string>, topic: Option<string>, fileType: Option<string>, filename: string)
    requires WellFormed(rows)
    requires filename != ""
    ensures var r := UpsertEffect(rows, section, topic, fileType, filename);
            r.Some? ==> WellFormed(r.value)
  {
    var r := UpsertEffect(rows, section, topic, fileType, filename);
    if r.Some? {
      UpsertKeepsKeysUnique(rows, section, topic, fileType, filename);
      var ft := ParseFileType(fileType).value;
      forall j | 0 <= j < |r.value| ensures HoldsFile(r.value[j]) {
        match FirstMatch(rows, section, topic)
        case Some(i) =>
          if j == i {
            assert Slot(FilesOf(r.value[j]), ft) == Some(filename);
          } else {
            assert r.value[j] == rows[j];
          }
        case None =>
          if j == |rows| {
            assert Slot(FilesOf(r.value[j]), ft) == Some(filename);
          } else {
            assert r.value[j] == rows[j];
          }
      }
    }
  }

  /**
   * The as-written upsert breaks "no row without a file": a new topic
   * uploaded with a typed label that is not one of the three buttons gets a
   * row with three NULLs.
   */
  lemma UpsertAsWrittenInsertsEmptyRow()
    ensures var r := UpsertAsWritten([], Some("Общая химия"), Some("Кислоты"), Some("Видео"), "Общая_химия_Кислоты_Видео_a.pdf");
            && WellFormed([])
            && r == Some([Row(Some("Общая химия"), Some("Кислоты"), None, None, None)])
            && !WellFormed(r.value)
  {
    assert ParseFileType(Some("Видео")) == None;
    assert NewRow(Some("Общая химия"), Some("Кислоты"), Some("Видео"), "Общая_химия_Кислоты_Видео_a.pdf")
        == Row(Some("Общая химия"), Some("Кислоты"), None, None, None);
    assert [] + [Row(Some("Общая химия"), Some("Кислоты"), None, None, None)]
        == [Row(Some("Общая химия"), Some("Кислоты"), None, None, None)];
    assert !HoldsFile(Row(Some("Общая химия"), Some("Кислоты"), None, None, None));
    var r := UpsertAsWritten([], Some("Общая химия"), Some("Кислоты"), Some("Видео"), "Общая_химия_Кислоты_Видео_a.pdf");
    assert !HoldsFile(r.value[0]);
  }

  /**
   * A row without a truthy file can never be deleted through the bot: it is
   * not listed in its section, and every deletion for its key answers
   * `not_found` and leaves the table as it is.
   */
  lemma EmptyRowIsStuck(rows: seq<Row>, i: nat, fileType: Option<string>)
    requires i < |rows| && rows[i] == Row(rows[i].section, rows[i].topic, None, None, None)
    requires FirstMatch(rows, rows[i].section, rows[i].topic) == Some(i)
    ensures DeleteEffect(rows, rows[i].section, rows[i].topic, fileType) == Deletion(NotFound, rows, None)
    ensures forall t :: t in TopicsBySection(rows, rows[i].section) ==>
              exists k :: 0 <= k < |rows| && k != i && rows[k].topic == t
  {
    forall t | t in TopicsBySection(rows, rows[i].section)
      ensures exists k :: 0 <= k < |rows| && k != i && rows[k].topic == t
    {
      var k :| 0 <= k < |rows| && SqlEq(rows[k].section, rows[i].section) && HasFile(rows[k]) && rows[k].topic == t;
      assert k != i;
    }
  }

  /**
   * Upload of a theory file for a new topic creates one row holding only that
   * file; deleting the theory file again removes the row and reports
   * `topic_removed`, leaving the table empty.
   */
  lemma UploadThenDeleteTheory(name: string)
    requires name != ""
    ensures var up := UpsertEffect([], Some("Органическая химия"), Some("Кислоты"), Some(TheoryLabel), name);
            && up == Some([Row(Some("Органическая химия"), Some("Кислоты"), Some(name), None, None)])
            && DeleteEffect(up.value, Some("Органическая химия"), Some("Кислоты"), Some(TheoryLabel))
               == Deletion(TopicRemoved, [], Some(name))
  {
    var row := Row(Some("Органическая химия"), Some("Кислоты"), Some(name), None, None);
    assert [] + [row] == [row];
    var cleared := ClearSlot([row], Some("Органическая химия"), Some("Кислоты"), Theory);
    assert cleared == [Row(Some("Органическая химия"), Some("Кислоты"), None, None, None)];
    assert RemoveMatching(cleared, Some("Органическая химия"), Some("Кислоты")) == [];
  }

  // ---------------------------------------------------------------------------
  // The table as an object

  /** The `topics` table of database.db, created empty by init_db. */
  class TopicTable {
    var rows: seq<Row>

    constructor()
      ensures rows == []
    {
      rows := [];
    }

    /** `SELECT ... WHERE section = ? AND topic = ?` then `fetchone()`, as a scan in rowid order. */
    method FindFirst(section: Option<string>, topic: Option<string>) returns (found: Option<nat>)
      ensures found == FirstMatch(rows, section, topic)
    {
      var k := 0;
      while k < |rows|
        invariant 0 <= k <= |rows|
        invariant forall j :: 0 <= j < k ==> !Matches(rows[j], section, topic)
      {
        if Matches(rows[k], section, topic) {
          return Some(k);
        }
        k := k + 1;
      }
      return None;
    }

    /** delete_file_by_type: returns the outcome code and the stored file removed from disk, if any. */
    method DeleteFileByType(section: Option<string>, topic: Option<string>, fileType: Option<string>)
      returns (outcome: DeleteOutcome, removed: Option<string>)
      modifies this
      ensures Deletion(outcome, rows, removed) == DeleteEffect(old(rows), section, topic, fileType)
    {
      var column := ParseFileType(fileType);
      if column.None? {
        return NotFound, None;
      }
      var ft := column.value;
      var found := FindFirst(section, topic);
      if found.None? {
        return NoTopic, None;
      }
      var i := found.value;
      var target := Slot(FilesOf(rows[i]), ft);
      if !Truthy(target) {
        return NotFound, None;
      }
      removed := target;

      ghost var before := rows;
      ClearSlotInPlace(section, topic, ft);
      // The re-read returns the same first row: the UPDATE left the keys alone.
      ClearSlotKeepsFirstMatch(before, section, topic, ft);
      var after := rows[i];
      if !HoldsFile(after) {
        RemoveMatchingInPlace(section, topic);
        outcome := TopicRemoved;
      } else {
        outcome := Deleted;
      }
    }

    /** `UPDATE topics SET <column> = NULL WHERE section = ? AND topic = ?` */
    method ClearSlotInPlace(section: Option<string>, topic: Option<string>, ft: FileType)
      modifies this
      ensures rows == ClearSlot(old(rows), section, topic, ft)
    {
      var k := 0;
      while k < |rows|
        invariant 0 <= k <= |rows| == |old(rows)|
        invariant forall j :: 0 <= j < k ==>
                    rows[j] == if Matches(old(rows)[j], section, topic) then WithSlot(old(rows)[j], ft, None) else old(rows)[j]
        invariant forall j :: k <= j < |rows| ==> rows[j] == old(rows)[j]
      {
        if Matches(rows[k], section, topic) {
          rows := rows[k := WithSlot(rows[k], ft, None)];
        }
        k := k + 1;
      }
    }

    /** `DELETE FROM topics WHERE section = ? AND topic = ?` */
    method RemoveMatchingInPlace(section: Option<string>, topic: Option<string>)
      modifies this
      ensures rows == RemoveMatching(old(rows), section, topic)
    {
      var src := rows;
      var kept: seq<Row> := [];
      var k := 0;
      while k < |src|
        invariant 0 <= k <= |src|
        invariant kept + RemoveMatching(src[k..], section, topic) == RemoveMatching(src, section, topic)
      {
        var head := if Matches(src[k], section, topic) then [] else [src[k]];
        RemoveMatchingStep(src, section, topic, k, kept);
        kept := kept + head;
        k := k + 1;
      }
      assert src[|src|..] == [];
      rows := kept;
    }

    /**
     * The write of receive_file: returns whether anything was written; when
     * not, the label was unknown and the table is unchanged.
     */
    method Upsert(section: Option<string>, topic: Option<string>, fileType: Option<string>, filename: string)
      returns (written: bool)
      modifies this
      ensures written <==> UpsertEffect(old(rows), section, topic, fileType, filename).Some?
      ensures rows == if written then UpsertEffect(old(rows), section, topic, fileType, filename).value else old(rows)
    {
      var column := ParseFileType(fileType);
      if column.None? {
        return false;
      }
      var found := FindFirst(section, topic);
      if found.Some? {
        var i := found.value;
        rows := rows[i := WithSlot(rows[i], column.value, Some(filename))];
      } else {
        rows := rows + [NewRow(section, topic, fileType, filename)];
      }
      written := true;
    }
  }
}
