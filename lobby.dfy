/**
 * The lobby side of src/ui/menu.py: the `InputBox` of the creation form
 * (title text capped at 15 characters, a bot counter that never goes
 * negative) and the `Menu`'s list of sessions, which a server message
 * replaces wholesale and the creation form appends to.
 *
 * Mouse and keyboard arrive as `InputEvent` values, with the hit test on the
 * box's rectangle already done; button clicks are the methods named after
 * them. The JSON text form goes through an abstract `Codec`.
 */
module Lobby {
  import opened Wrappers
  import opened Json
  import opened SessionRecords
  import opened SessionWire

  /** The title field stops taking characters at this length. */
  const MaxTitleLength: nat := 15

  /** A key press: backspace, or any other key with the text it produces (`event.unicode`). */
  datatype Key = Backspace | Typed(unicode: string)

  /** One pygame event as `handle_event` sees it. */
  datatype InputEvent = MouseDown(inside: bool) | KeyDown(key: Key) | OtherEvent

  /** The event can add at most one character: every single key press. */
  predicate SingleCharacter(e: InputEvent) {
    e.KeyDown? && e.key.Typed? ==> |e.key.unicode| <= 1
  }

  /**
   * The title after one key press in the active box: backspace drops the
   * last character (nothing on an empty title); another key appends its text
   * while the title is shorter than 15 characters, and is ignored otherwise.
   */
  function AfterKey(text: string, key: Key): (r: string)
    ensures key.Backspace? && text != [] ==> r + [text[|text| - 1]] == text
    ensures key.Backspace? && text == [] ==> r == []
    ensures key.Typed? && |text| < MaxTitleLength ==> r == text + key.unicode
    ensures key.Typed? && |text| >= MaxTitleLength ==> r == text
    ensures |text| <= MaxTitleLength && (key.Typed? ==> |key.unicode| <= 1) ==> |r| <= MaxTitleLength
  {
    match key
    case Backspace => if text == [] then [] else text[..|text| - 1]
    case Typed(u) => if |text| < MaxTitleLength then text + u else text
  }

  /** Typing a character into a title that has room, then backspace, gives the title back. */
  lemma TypeThenErase(text: string, ch: char)
    requires |text| < MaxTitleLength
    ensures AfterKey(AfterKey(text, Typed([ch])), Backspace) == text
  {
    assert (text + [ch])[..|text|] == text;
  }

  /**
   * The title after typing `keys` in order. Typing never shortens it, and
   * never lengthens a title that is already full.
   */
  function TypeAll(text: string, keys: seq<string>): (r: string)
    ensures |text| <= |r|
    ensures |text| >= MaxTitleLength ==> r == text
    decreases |keys|
  {
    if keys == [] then text else TypeAll(AfterKey(text, Typed(keys[0])), keys[1..])
  }

  /** Typed single characters never take the title past 15 characters. */
  lemma {:induction false} TypingStaysBounded(text: string, keys: seq<string>)
    requires |text| <= MaxTitleLength
    requires forall k :: 0 <= k < |keys| ==> |keys[k]| <= 1
    ensures |TypeAll(text, keys)| <= MaxTitleLength
    decreases |keys|
  {
    if keys != [] {
      assert |keys[0]| <= 1;
      TypingStaysBounded(AfterKey(text, Typed(keys[0])), keys[1..]);
    }
  }

  class InputBox {
    var text: string
    var active: bool
    /** `temp_nb_ia`: the bots the form will ask for. */
    var bots: int
    /** `temp_nb_players`. */
    var players: int

    ghost predicate Valid()
      reads this
    {
      |text| <= MaxTitleLength && bots >= 0
    }

    /** `InputBox(...)` with the default empty text. */
    constructor()
      ensures text == "" && !active && bots == 0 && players == 1
      ensures Valid()
    {
      text := "";
      active := false;
      bots := 0;
      players := 1;
    }

    /**
     * `handle_event`: a click toggles the box when inside it and deactivates
     * it when outside; a key press edits the title only while the box is
     * active.
     */
    method HandleEvent(e: InputEvent)
      modifies this
      ensures active == (if e.MouseDown? then e.inside && !old(active) else old(active))
      ensures text == (if e.KeyDown? && old(active) then AfterKey(old(text), e.key) else old(text))
      ensures bots == old(bots) && players == old(players)
      ensures old(Valid()) && SingleCharacter(e) ==> Valid()
    {
      if e.MouseDown? {
        if e.inside {
          active := !active;
        } else {
          active := false;
        }
      }
      if e.KeyDown? && active {
        match e.key
        case Backspace =>
          if text != [] {
            text := text[..|text| - 1];
          }
        case Typed(u) =>
          if |text| < MaxTitleLength {
            text := text + u;
          }
      }
    }

    /** `clean`: back to an empty, inactive form with no bots and one player. */
    method Clean()
      modifies this
      ensures text == "" && !active && bots == 0 && players == 1
      ensures Valid()
    {
      text := "";
      active := false;
      bots := 0;
      players := 1;
    }
  }

  /**
   * Every listed session sits on its row: a numeric gap, and
   * `y = 79 + i * gap` for the session at index `i`.
   */
  ghost predicate LaidOut(sessions: seq<Session>) {
    forall i :: 0 <= i < |sessions| ==>
      AsNumber(sessions[i].gap).Some? && sessions[i].y == JInt(BaseY + i * AsNumber(sessions[i].gap).value)
  }

  /** A rebuilt list is laid out, whatever `y` the records carried. */
  lemma BuildLaidOut(items: seq<Json>)
    ensures LaidOut(Build(items))
  {
    var r := Build(items);
    forall i | 0 <= i < |r|
      ensures AsNumber(r[i].gap).Some? && r[i].y == JInt(BaseY + i * AsNumber(r[i].gap).value)
    {
      assert Entry(items[i], 0 + i) == Some(r[i]);
    }
  }

  /**
   * The records a decoded payload hands to the rebuild loop. A list gives its
   * items; any other value either iterates over nothing or raises on its
   * first element (a key or a character has no `.get`, a number is not
   * iterable), and in each case the loop leaves an empty list.
   */
  function Records(v: Json): (items: seq<Json>)
    ensures v.JArr? ==> items == v.items
    ensures !v.JArr? ==> Build(items) == []
  {
    if v.JArr? then v.items else []
  }

  /** The session the creation form builds from the box's title and bot count. */
  function Created(text: string, bots: int, row: nat): (s: Session)
    ensures s.titre == JStr(if text == "" then DefaultTitle else text)
    ensures s.nbBots == JInt(bots) && s.nbPlayers == JInt(DefaultPlayers) && s.gap == JInt(DefaultGap)
    ensures s.y == JInt(BaseY + row * DefaultGap)
  {
    NewSession().(titre := JStr(if text == "" then DefaultTitle else text), nbBots := JInt(bots),
                  y := JInt(BaseY + row * DefaultGap))
  }

  /** Appending the created session keeps the list laid out. */
  lemma CreatedLaidOut(sessions: seq<Session>, text: string, bots: int)
    requires LaidOut(sessions)
    ensures LaidOut(sessions + [Created(text, bots, |sessions|)])
  {
    var r := sessions + [Created(text, bots, |sessions|)];
    forall i | 0 <= i < |r|
      ensures AsNumber(r[i].gap).Some? && r[i].y == JInt(BaseY + i * AsNumber(r[i].gap).value)
    {
      if i < |sessions| {
        assert r[i] == sessions[i];
      }
    }
  }

  class Menu {
    /** The local copy of the lobby, in display order. */
    var sessions: seq<Session>
    /** `self.server is not None`. */
    var connected: bool
    var state: string
    const input: InputBox

    ghost predicate Valid()
      reads this, input
    {
      LaidOut(sessions) && input.Valid()
    }

    /** The lobby part of `Menu()`: no sessions, no server, a fresh input box. */
    constructor()
      ensures sessions == [] && !connected && state == "main"
      ensures fresh(input)
      ensures Valid()
    {
      sessions := [];
      connected := false;
      state := "main";
      input := new InputBox();
    }

    /**
     * `send_session_to_server`: the `[Sessions]:` message that is broadcast
     * with no sender, or nothing when no server is attached.
     */
    method SendSessionToServer(c: Codec, s: Session) returns (sent: Option<string>)
      ensures sent.Some? <==> connected
      ensures sent.Some? ==> IsSessionCreation(sent.value) && PayloadOf(sent.value) == Some(c.encode(JObj(ToDict(s))))
      ensures sent.Some? ==> sent.value == SessionMessage(c, s)
    {
      if !connected {
        return None;
      }
      SessionMessageRecognised(c, s);
      sent := Some(SessionMessage(c, s));
    }

    /**
     * `update_sessions_from_server`: a payload that does not decode leaves
     * the list alone; otherwise the list is emptied and rebuilt record by
     * record, and the first record that raises ends the rebuild there.
     */
    method UpdateSessionsFromServer(c: Codec, payload: string)
      requires Valid()
      modifies this
      ensures Valid()
      ensures c.decode(payload).None? ==> sessions == old(sessions)
      ensures c.decode(payload).Some? ==> sessions == Build(Records(c.decode(payload).value))
      ensures connected == old(connected) && state == old(state)
    {
      var decoded := c.decode(payload);
      if decoded.None? {
        return;
      }
      var items := Records(decoded.value);
      sessions := [];
      var idx := 0;
      while idx < |items|
        invariant idx <= |items| && |sessions| == idx
        invariant connected == old(connected) && state == old(state)
        invariant forall k :: 0 <= k < idx ==> Entry(items[k], 0 + k) == Some(sessions[k])
        decreases |items| - idx
      {
        var entry := Entry(items[idx], idx);
        if entry.None? {
          break;
        }
        sessions := sessions + [entry.value];
        idx := idx + 1;
      }
      BuildFromUnique(items, 0, sessions);
      BuildLaidOut(items);
    }

    /** The `+` button of the creation form. */
    method PressMoreBots()
      requires Valid()
      modifies input
      ensures Valid()
      ensures input.bots == old(input.bots) + 1
      ensures input.text == old(input.text) && input.active == old(input.active) && input.players == old(input.players)
    {
      input.bots := input.bots + 1;
    }

    /** The `-` button: it only counts down from a positive number. */
    method PressFewerBots()
      requires Valid()
      modifies input
      ensures Valid()
      ensures input.bots == (if old(input.bots) > 0 then old(input.bots) - 1 else old(input.bots))
      ensures input.text == old(input.text) && input.active == old(input.active) && input.players == old(input.players)
    {
      if input.bots > 0 {
        input.bots := input.bots - 1;
      }
    }

    /**
     * `Confirm` on the creation form: one session is appended, titled with
     * the box's text (or the default title), carrying the bot count and
     * placed on the next row; it is sent to the server and the menu moves
     * to the session list.
     */
    method ConfirmCreation(c: Codec) returns (sent: Option<string>)
      requires Valid()
      modifies this
      ensures Valid()
      ensures sessions == old(sessions) + [Created(input.text, input.bots, |old(sessions)|)]
      ensures sent.Some? <==> connected
      ensures sent.Some? ==> sent.value == SessionMessage(c, Created(input.text, input.bots, |old(sessions)|))
      ensures state == "play" && connected == old(connected)
    {
      var s := Created(input.text, input.bots, |sessions|);
      CreatedLaidOut(sessions, input.text, input.bots);
      sessions := sessions + [s];
      sent := SendSessionToServer(c, s);
      state := "play";
    }

    /** The `play` state of `method_menu`: the creation form is cleared. */
    method EnterPlay()
      requires Valid()
      modifies input
      ensures Valid()
      ensures input.text == "" && !input.active && input.bots == 0 && input.players == 1
    {
      input.Clean();
    }
  }
}
