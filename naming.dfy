/**
 * The two string conventions of the dialogue: the name under which an
 * uploaded document is stored, and the callback data of a topic button.
 */
module Naming {
  import opened Wrappers

  /** How a Python f-string renders a value that may be `None`. */
  function Render(v: Option<string>): string
  {
    match v
    case None => "None"
    case Some(s) => s
  }

  /** `s.replace(" ", "_")`: every space becomes an underscore, nothing else moves. */
  function ReplaceSpaces(s: string): (r: string)
    ensures |r| == |s|
    ensures forall i :: 0 <= i < |s| ==> r[i] == (if s[i] == ' ' then '_' else s[i])
  {
    if s == [] then [] else [if s[0] == ' ' then '_' else s[0]] + ReplaceSpaces(s[1..])
  }

  /**
   * The stored filename `{section}_{topic}_{file_type}_{file_name}` with spaces
   * replaced by underscores. It never contains a space and is never empty, so a
   * file slot that holds it is always truthy.
   */
  function StoredFileName(section: Option<string>, topic: Option<string>,
                          fileType: Option<string>, originalName: Option<string>): (r: string)
    ensures ' ' !in r
    ensures |r| == |Render(section)| + |Render(topic)| + |Render(fileType)| + |Render(originalName)| + 3
  {
    var joined := Render(section) + "_" + Render(topic) + "_" + Render(fileType) + "_" + Render(originalName);
    var r := ReplaceSpaces(joined);
    assert forall i :: 0 <= i < |r| ==> r[i] != ' ';
    r
  }

  /** When no part holds a space, the stored name is the plain underscore-joined concatenation. */
  lemma StoredFileNameWithoutSpaces(section: string, topic: string, fileType: string, originalName: string)
    requires ' ' !in section && ' ' !in topic && ' ' !in fileType && ' ' !in originalName
    ensures StoredFileName(Some(section), Some(topic), Some(fileType), Some(originalName))
            == section + "_" + topic + "_" + fileType + "_" + originalName
  {
    var joined := section + "_" + topic + "_" + fileType + "_" + originalName;
    assert ' ' !in joined;
    var r := ReplaceSpaces(joined);
    assert forall i :: 0 <= i < |joined| ==> r[i] == joined[i];
  }

  /** Every topic button carries `topic:` followed by the topic's name. */
  const TopicPrefix: string := "topic:"

  /** The callback data of the button for topic `t`, `f"topic:{t}"`. */
  function TopicCallbackData(t: Option<string>): (d: string)
    ensures IsTopicCallback(Some(d))
    ensures d[|TopicPrefix|..] == Render(t)
  {
    TopicPrefix + Render(t)
  }

  /** The filter of the topic callback handler: `c.data and c.data.startswith("topic:")`. */
  predicate IsTopicCallback(data: Option<string>): (b: bool)
    ensures b ==> data.Some? && |data.value| >= |TopicPrefix| && data.value[..|TopicPrefix|] == TopicPrefix
    ensures data.None? || data.value == [] ==> !b
  {
    data.Some? && TopicPrefix <= data.value
  }

  /** True when `sep` occurs in `s` starting at index `i`. */
  predicate OccursAt(s: string, sep: string, i: nat)
  {
    i + |sep| <= |s| && s[i..i + |sep|] == sep
  }

  /** Shifting the start of an occurrence by the first character of `s`. */
  lemma OccursAtTail(s: string, sep: string, i: nat)
    requires s != []
    ensures OccursAt(s, sep, i + 1) <==> OccursAt(s[1..], sep, i)
  {
    if i + 1 + |sep| <= |s| {
      assert s[i + 1..i + 1 + |sep|] == s[1..][i..i + |sep|];
    }
  }

  /** `s.split(sep)[0]`: the part of `s` before the first occurrence of `sep`. */
  function UpTo(s: string, sep: string): (r: string)
    requires sep != []
    ensures r <= s
    ensures forall i :: 0 <= i < |r| ==> !OccursAt(s, sep, i)
    ensures |r| < |s| ==> OccursAt(s, sep, |r|)
    decreases |s|
  {
    if s == [] || sep <= s then
      assert s != [] ==> s[0..|sep|] == sep;
      []
    else
      var rest := UpTo(s[1..], sep);
      assert !OccursAt(s, sep, 0);
      forall i | 1 <= i < 1 + |rest| ensures !OccursAt(s, sep, i) {
        OccursAtTail(s, sep, i - 1);
      }
      OccursAtTail(s, sep, |rest|);
      [s[0]] + rest
  }

  /**
   * `callback.data.split("topic:")[1]`: since the data starts with the prefix,
   * the topic is what follows it up to the next occurrence of the prefix.
   */
  function TopicOfCallback(data: string): (t: string)
    requires TopicPrefix <= data
    ensures t <= data[|TopicPrefix|..]
  {
    UpTo(data[|TopicPrefix|..], TopicPrefix)
  }

  /** A topic button leads back to its own topic whenever the name does not contain `topic:`. */
  lemma TopicCallbackRoundTrip(t: string)
    requires forall i :: 0 <= i < |t| ==> !OccursAt(t, TopicPrefix, i)
    ensures IsTopicCallback(Some(TopicCallbackData(Some(t))))
    ensures TopicOfCallback(TopicCallbackData(Some(t))) == t
  {
    var data := TopicCallbackData(Some(t));
    assert data[|TopicPrefix|..] == t;
  }
}
