/** The text of hold keys and of their values. */
module HoldCodec {
  import opened Domain

  function HoldKey(desk: string, time: string): string {
    "slot:hold:" + desk + ":" + time
  }

  /** `text` cut at every colon. */
  function Split(text: string): (parts: seq<string>)
    ensures |parts| >= 1
  {
    if text == "" then [""]
    else if text[0] == ':' then [""] + Split(text[1..])
    else var parts := Split(text[1..]); [[text[0]] + parts[0]] + parts[1..]
  }

  function Join(parts: seq<string>): string {
    if parts == [] then "" else if |parts| == 1 then parts[0] else parts[0] + ":" + Join(parts[1..])
  }

  function ParseHoldKey(key: string): Option<(string, string)> {
    var parts := Split(key);
    if |parts| < 4 || parts[2] == "" then None else Some((parts[2], Join(parts[3..])))
  }

  predicate Plain(text: string) {
    forall i | 0 <= i < |text| :: text[i] != ':'
  }

  lemma {:induction false} SplitPlain(head: string, tail: string)
    requires Plain(head)
    ensures Split(head + ":" + tail) == [head] + Split(tail)
  {
    if head == "" {
      assert head + ":" + tail == ":" + tail && (":" + tail)[1..] == tail;
    } else {
      assert (head + ":" + tail)[1..] == head[1..] + ":" + tail;
      SplitPlain(head[1..], tail);
      assert [head[0]] + head[1..] == head;
    }
  }

  lemma {:induction false} JoinSplit(text: string)
    ensures Join(Split(text)) == text
  {
    if text != "" {
      JoinSplit(text[1..]);
      var parts := Split(text[1..]);
      if text[0] == ':' {
        assert ([""] + parts)[1..] == parts;
        assert text == ":" + text[1..];
      } else {
        var own := [[text[0]] + parts[0]] + parts[1..];
        assert own[1..] == parts[1..];
        assert text == [text[0]] + text[1..];
      }
    }
  }

  lemma {:induction false} FirstPartPlain(text: string)
    ensures Plain(Split(text)[0])
  {
    if text != "" { FirstPartPlain(text[1..]); }
  }

  /** A key read back names its desk and time exactly when the desk id is not empty and has no colon. */
  lemma HoldKeyRoundTrip(desk: string, time: string)
    ensures ParseHoldKey(HoldKey(desk, time)) == Some((desk, time)) <==> desk != "" && Plain(desk)
  {
    var key := HoldKey(desk, time);
    assert key == "slot" + ":" + ("hold" + ":" + (desk + ":" + time));
    SplitPlain("slot", "hold" + ":" + (desk + ":" + time));
    SplitPlain("hold", desk + ":" + time);
    var inner := Split(desk + ":" + time);
    assert Split(key) == ["slot", "hold"] + inner;
    assert Split(key)[2] == inner[0] && Split(key)[3..] == inner[1..];
    if Plain(desk) {
      SplitPlain(desk, time);
      JoinSplit(time);
    } else {
      FirstPartPlain(desk + ":" + time);
    }
  }

  function OwnerText(session: string, holdId: string): string {
    session + ":" + holdId
  }

  /** The prefix test on a value finds exactly the session's own holds, as session ids have no colon. */
  lemma PrefixIsOwner(session: string, holdId: string, other: string)
    requires Plain(session) && Plain(other)
    ensures other + ":" <= OwnerText(session, holdId) <==> other == session
    ensures OwnerText(session, holdId)[|session| + 1..] == holdId
  {
    var text := OwnerText(session, holdId);
    assert text[|session|] == ':';
    if other + ":" <= text {
      assert text[|other|] == (other + ":")[|other|];
      assert |other| == |session|;
      assert other == text[..|other|] && session == text[..|session|];
    }
  }
}
