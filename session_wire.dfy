/**
 * The lobby wire format exercised by test_sessions_json.py: a tag, a colon,
 * then the JSON text of one session (`[Sessions]`) or of the whole list
 * (`[SessionsList]`). Receivers split at the first colon and recognise a
 * session creation by its prefix.
 */
module SessionWire {
  import opened Wrappers
  import opened Json
  import opened SessionRecords

  const SessionsTag: string := "[Sessions]"
  const SessionsListTag: string := "[SessionsList]"

  function Envelope(tag: string, payload: string): string {
    tag + ":" + payload
  }

  /** The message `send_session_to_server` builds: `[Sessions]:` and the JSON of `to_dict`. */
  function SessionMessage(c: Codec, s: Session): string {
    Envelope(SessionsTag, c.encode(JObj(ToDict(s))))
  }

  /** Position of the first `ch` in `s` (`str.find`), `None` when absent. */
  function FirstIndex(s: string, ch: char): (r: Option<nat>)
    ensures r.None? <==> ch !in s
    ensures r.Some? ==> r.value < |s| && s[r.value] == ch && ch !in s[..r.value]
  {
    if s == [] then None
    else if s[0] == ch then Some(0)
    else
      match FirstIndex(s[1..], ch)
      case None => None
      case Some(k) =>
        assert s[..k + 1] == [s[0]] + s[1..][..k];
        Some(k + 1)
  }

  /** `s.split(sep, 1)`: the whole string, or the parts before and after the first `sep`. */
  function SplitOnce(s: string, sep: char): (parts: seq<string>)
    ensures 1 <= |parts| <= 2
    ensures |parts| == 1 <==> sep !in s
    ensures |parts| == 1 ==> parts[0] == s
    ensures |parts| == 2 ==> parts[0] + [sep] + parts[1] == s && sep !in parts[0]
  {
    match FirstIndex(s, sep)
    case None => [s]
    case Some(k) =>
      assert s == s[..k] + [sep] + s[k + 1..];
      [s[..k], s[k + 1..]]
  }

  /**
   * `message.split(":", 1)[1]`; `None` is the IndexError of a message with
   * no colon. The payload is everything after the first colon.
   */
  function PayloadOf(message: string): (r: Option<string>)
    ensures r.None? <==> ':' !in message
    ensures r.Some? ==> var k := |message| - |r.value| - 1;
      0 <= k && message == message[..k] + ":" + r.value && ':' !in message[..k]
  {
    var parts := SplitOnce(message, ':');
    if |parts| == 2 then
      assert message[..|parts[0]|] == parts[0];
      Some(parts[1])
    else None
  }

  /**
   * Splitting an envelope whose tag has no colon gives back the tag and the
   * payload unchanged, however many colons the payload holds.
   */
  lemma {:induction false} SplitEnvelope(tag: string, payload: string)
    requires ':' !in tag
    ensures SplitOnce(Envelope(tag, payload), ':') == [tag, payload]
    ensures PayloadOf(Envelope(tag, payload)) == Some(payload)
  {
    var m := Envelope(tag, payload);
    var parts := SplitOnce(m, ':');
    assert m[|tag|] == ':';
    assert ':' in m;
    assert |parts| == 2;
    var k := |parts[0]|;
    assert m == parts[0] + [':'] + parts[1];
    assert m[k] == ':';
    if k < |tag| {
      assert false;
    } else if k > |tag| {
      assert false;
    }
    assert parts[0] == m[..k] == tag;
    assert parts[1] == m[k + 1..] == payload;
  }

  function StartsWith(s: string, prefix: string): (r: bool)
    ensures r <==> |prefix| <= |s| && s[..|prefix|] == prefix
  {
    prefix <= s
  }

  /**
   * The server-side test for a session creation: the message starts with
   * `[Sessions]`. A `[SessionsList]` message never passes it.
   */
  predicate IsSessionCreation(message: string): (b: bool)
    ensures StartsWith(message, SessionsListTag) ==> !b
  {
    assert StartsWith(message, SessionsListTag) ==> message[9] == 'L';
    StartsWith(message, SessionsTag)
  }

  /** A session's own message is recognised as a creation, and its payload is the JSON of its dictionary. */
  lemma SessionMessageRecognised(c: Codec, s: Session)
    ensures IsSessionCreation(SessionMessage(c, s))
    ensures PayloadOf(SessionMessage(c, s)) == Some(c.encode(JObj(ToDict(s))))
  {
    SplitEnvelope(SessionsTag, c.encode(JObj(ToDict(s))));
  }

  const RequiredFields: seq<string> := ["titre", "nb_bots", "nb_players"]

  /** Server-side validation: `all(field in data for field in required_fields)`. */
  predicate IsValid(data: map<string, Json>): (b: bool)
    ensures b ==> "titre" in data && "nb_bots" in data && "nb_players" in data
  {
    assert RequiredFields[0] == "titre" && RequiredFields[1] == "nb_bots" && RequiredFields[2] == "nb_players";
    forall k :: 0 <= k < |RequiredFields| ==> RequiredFields[k] in data
  }

  /** Validation accepts exactly when the three required keys are there; `y` and `gap` play no part. */
  lemma ValidIff(data: map<string, Json>)
    ensures IsValid(data) <==> "titre" in data && "nb_bots" in data && "nb_players" in data
    ensures IsValid(data) <==> IsValid(data - {"y", "gap"})
  {
    if "titre" in data && "nb_bots" in data && "nb_players" in data {
      forall k | 0 <= k < |RequiredFields| ensures RequiredFields[k] in data {
      }
    }
    assert RequiredFields[0] == "titre" && RequiredFields[1] == "nb_bots" && RequiredFields[2] == "nb_players";
  }

  /** Every dictionary `to_dict` produces passes validation. */
  lemma ToDictIsValid(s: Session)
    ensures IsValid(ToDict(s))
  {
    ValidIff(ToDict(s));
  }

  /** The record received in the deserialisation test. */
  const IceTemple: map<string, Json> :=
    map["titre" := JStr("Ice Temple"), "nb_bots" := JInt(1), "nb_players" := JInt(3), "y" := JInt(204), "gap" := JInt(125)]

  lemma IceTempleDecodes()
    ensures FromDict(JObj(IceTemple)) == Some(Session(JStr("Ice Temple"), JInt(1), JInt(3), JInt(204), JInt(125)))
  {
  }

  /** The dictionaries the multiple-sessions test builds: row i at `y = 79 + i * 125`. */
  function TestRecords(specs: seq<(string, int, int)>): (recs: seq<Json>)
    ensures |recs| == |specs|
  {
    seq(|specs|, i requires 0 <= i < |specs| =>
      JObj(ToDict(NewSession().(titre := JStr(specs[i].0), nbBots := JInt(specs[i].1),
                                nbPlayers := JInt(specs[i].2), y := JInt(BaseY + i * DefaultGap)))))
  }

  /**
   * The list broadcast as `[SessionsList]:` and split at the first colon
   * decodes to the same records in the same order; rebuilding the lobby from
   * them yields exactly the sessions that were sent, positions included.
   */
  lemma {:induction false} SessionsListRoundTrip(c: Codec, specs: seq<(string, int, int)>)
    requires Lawful(c)
    ensures var recs := TestRecords(specs);
      && PayloadOf(Envelope(SessionsListTag, c.encode(JArr(recs)))) == Some(c.encode(JArr(recs)))
      && c.decode(c.encode(JArr(recs))) == Some(JArr(recs))
      && |Build(recs)| == |specs|
      && forall i :: 0 <= i < |specs| ==> FromDict(recs[i]) == Some(Build(recs)[i])
  {
    var recs := TestRecords(specs);
    SplitEnvelope(SessionsListTag, c.encode(JArr(recs)));
    TestRecordsRebuilt(specs);
  }

  /** The client rebuilds one session per test record, equal to the record it was sent. */
  lemma TestRecordsRebuilt(specs: seq<(string, int, int)>)
    ensures var recs := TestRecords(specs);
      && |Build(recs)| == |specs|
      && forall i :: 0 <= i < |specs| ==> FromDict(recs[i]) == Some(Build(recs)[i])
  {
    var recs := TestRecords(specs);
    TestRecordsWellFormed(specs);
    BuildAllWellFormed(recs);
    forall i | 0 <= i < |specs| ensures FromDict(recs[i]) == Some(Build(recs)[i]) {
      TestRecordRead(specs, i);
    }
  }

  /** The `i`-th test record reads back as the session it was written from, gap and position included. */
  lemma TestRecordRead(specs: seq<(string, int, int)>, i: nat)
    requires i < |specs|
    ensures var s := FromDict(TestRecords(specs)[i]).value;
      FromDict(TestRecords(specs)[i]).Some? && s.gap == JInt(DefaultGap) && s.y == JInt(BaseY + i * DefaultGap)
  {
  }

  /** Every record the test builds is an object with the default, numeric gap. */
  lemma TestRecordsWellFormed(specs: seq<(string, int, int)>)
    ensures forall k :: 0 <= k < |specs| ==> WellFormed(TestRecords(specs)[k])
  {
    var recs := TestRecords(specs);
    forall k | 0 <= k < |recs| ensures WellFormed(recs[k]) {
      assert FromDict(recs[k]).value.gap == JInt(DefaultGap);
    }
  }
}
