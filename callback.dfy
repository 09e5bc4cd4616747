/**
 * The inline-button payload `verify|{task_id}|0` that `add_task` attaches to a
 * task announcement and that `button` splits on `|` when it is pressed.
 */
module Callback {
  import opened Common
  import opened PyStr

  const VerifyTag: string := "verify"

  /** What `button` makes of a payload. */
  datatype Request =
    | VerifyTask(taskId: nat)  // tag "verify" and a task id
    | Other                    // any other tag: the handler does nothing
    | Malformed                // IndexError on `data[1]` or ValueError in `int(data[1])`

  /** The payload built for the "Verify" button of task `taskId`. */
  function Encode(taskId: nat): string
  {
    VerifyTag + "|" + NatToString(taskId) + "|0"
  }

  /** `data.split("|")`, then the tag test and `int(data[1])`. */
  function Decode(data: string): Request
  {
    var fields := Split(data, '|');
    if fields[0] != VerifyTag then Other
    else if |fields| < 2 then Malformed
    else match ParseNat(fields[1])
      case None => Malformed
      case Some(n) => VerifyTask(n)
  }

  /** Pressing the button of task `taskId` asks to verify exactly that task. */
  lemma RoundTrip(taskId: nat)
    ensures Decode(Encode(taskId)) == VerifyTask(taskId)
  {
    var id := NatToString(taskId);
    var fields := [VerifyTag, id, "0"];
    assert '|' !in id;
    assert Join(fields, '|') == Encode(taskId) by {
      assert Join(fields[2..], '|') == "0";
      assert Join(fields[1..], '|') == id + "|0";
    }
    SplitJoin(fields, '|');
    ParseNatToString(taskId);
  }

  /** Only the first two fields matter: `verify|7|anything` still asks for task 7. */
  lemma TrailingFieldsIgnored(taskId: nat, tail: string)
    ensures Decode(Encode(taskId) + tail) == VerifyTask(taskId)
  {
    var id := NatToString(taskId);
    assert '|' !in id;
    var data := Encode(taskId) + tail;
    assert data == VerifyTag + ['|'] + (id + ['|'] + ("0" + tail));
    SplitPrefix(VerifyTag, id + ['|'] + ("0" + tail), '|');
    SplitPrefix(id, "0" + tail, '|');
    ParseNatToString(taskId);
  }

  /** A payload whose tag is not "verify" is ignored, whatever follows it. */
  lemma OtherTagIgnored(tag: string, rest: string)
    requires '|' !in tag && tag != VerifyTag
    ensures Decode(tag + "|" + rest) == Other
  {
    SplitPrefix(tag, rest, '|');
  }

  /** The tag alone, without a task id, is the IndexError case. */
  lemma BareTagMalformed()
    ensures Decode(VerifyTag) == Malformed
  {
    SplitField(VerifyTag, '|');
  }
}
