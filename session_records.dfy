/**
 * Lobby session records (`Session` in src/ui/menu.py) at the dictionary level:
 * `to_dict`, `from_dict` with its defaults, and the per-entry rebuild that
 * `update_sessions_from_server` performs. Python stores whatever value a key
 * holds, so every field is a `Json` value.
 */
module SessionRecords {
  import opened Wrappers
  import opened Json

  const DefaultTitle: string := "Sans titre"
  const DefaultBots: int := 0
  const DefaultPlayers: int := 1
  /** First row of the lobby list, and the vertical distance between rows. */
  const BaseY: int := 79
  const DefaultGap: int := 125

  datatype Session = Session(titre: Json, nbBots: Json, nbPlayers: Json, y: Json, gap: Json)

  /** A fresh `Session(menu)` before any field is assigned. */
  function NewSession(): (s: Session)
    ensures s.titre == JStr(DefaultTitle) && s.nbBots == JInt(DefaultBots)
    ensures s.nbPlayers == JInt(DefaultPlayers) && s.y == JInt(BaseY) && s.gap == JInt(DefaultGap)
  {
    Session(JStr(DefaultTitle), JInt(DefaultBots), JInt(DefaultPlayers), JInt(BaseY), JInt(DefaultGap))
  }

  /** The five keys `to_dict` writes. */
  const Keys: set<string> := {"titre", "nb_bots", "nb_players", "y", "gap"}

  /** `Session.to_dict`: exactly the five keys, each holding its field; `from_dict` undoes it. */
  function ToDict(s: Session): (d: map<string, Json>)
    ensures d.Keys == Keys
    ensures d["titre"] == s.titre && d["nb_bots"] == s.nbBots && d["nb_players"] == s.nbPlayers
    ensures d["y"] == s.y && d["gap"] == s.gap
    ensures FromDict(JObj(d)) == Some(s)
  {
    map["titre" := s.titre, "nb_bots" := s.nbBots, "nb_players" := s.nbPlayers, "y" := s.y, "gap" := s.gap]
  }

  /**
   * `Session.from_dict(data, menu)`: each field from its key, or its default
   * when the key is missing. Anything but a JSON object has no `.get` and
   * raises an AttributeError, which is `None` here.
   */
  function FromDict(data: Json): (r: Option<Session>)
    ensures r.Some? <==> data.JObj?
    ensures data.JObj? ==> r.value.titre == (if "titre" in data.fields then data.fields["titre"] else JStr(DefaultTitle))
    ensures data.JObj? ==> r.value.nbBots == (if "nb_bots" in data.fields then data.fields["nb_bots"] else JInt(DefaultBots))
    ensures data.JObj? ==> r.value.nbPlayers == (if "nb_players" in data.fields then data.fields["nb_players"] else JInt(DefaultPlayers))
    ensures data.JObj? ==> r.value.y == (if "y" in data.fields then data.fields["y"] else JInt(BaseY))
    ensures data.JObj? ==> r.value.gap == (if "gap" in data.fields then data.fields["gap"] else JInt(DefaultGap))
  {
    match data
    case JObj(d) =>
      Some(Session(
        Get(d, "titre", JStr(DefaultTitle)),
        Get(d, "nb_bots", JInt(DefaultBots)),
        Get(d, "nb_players", JInt(DefaultPlayers)),
        Get(d, "y", JInt(BaseY)),
        Get(d, "gap", JInt(DefaultGap))))
    case _ => None
  }

  /** An empty dictionary gives a session equal to a fresh one. */
  lemma FromEmptyDictIsDefault()
    ensures FromDict(JObj(map[])) == Some(NewSession())
  {
  }

  /**
   * The row `update_sessions_from_server` builds for the record at index
   * `idx`: `from_dict`, then `y = 79 + idx * gap`. `None` is the exception
   * that ends the rebuild there (no `.get`, or a gap Python cannot multiply
   * and add to an int).
   */
  function Entry(item: Json, idx: nat): (r: Option<Session>)
    ensures r.Some? <==> item.JObj? && AsNumber(FromDict(item).value.gap).Some?
    ensures r.Some? ==>
      var s := FromDict(item).value;
      r.value == s.(y := JInt(BaseY + idx * AsNumber(s.gap).value))
  {
    match FromDict(item)
    case None => None
    case Some(s) =>
      match AsNumber(s.gap)
      case None => None
      case Some(g) => Some(s.(y := JInt(BaseY + idx * g)))
  }

  /**
   * The list left behind by the rebuild loop over `items`, numbering them
   * from `start`: the entries before the first one that raises.
   */
  function BuildFrom(items: seq<Json>, start: nat): (r: seq<Session>)
    ensures |r| <= |items|
    ensures forall k :: 0 <= k < |r| ==> Entry(items[k], start + k) == Some(r[k])
    ensures |r| < |items| ==> Entry(items[|r|], start + |r|).None?
    decreases |items|
  {
    if items == [] then []
    else
      match Entry(items[0], start)
      case None => []
      case Some(s) => [s] + BuildFrom(items[1..], start + 1)
  }

  /**
   * The list of sessions read back from a JSON array: its `k`th session is
   * read from the `k`th element, and reading stops at the first element that
   * is not a session.
   */
  function Build(items: seq<Json>): (r: seq<Session>)
    ensures |r| <= |items|
    ensures forall k :: 0 <= k < |r| ==> Entry(items[k], k) == Some(r[k])
    ensures |r| < |items| ==> Entry(items[|r|], |r|).None?
  {
    BuildFrom(items, 0)
  }

  /**
   * The three facts `BuildFrom` ensures pin its result down: any list with
   * them is that result.
   */
  lemma {:induction false} BuildFromUnique(items: seq<Json>, start: nat, r: seq<Session>)
    requires |r| <= |items|
    requires forall k :: 0 <= k < |r| ==> Entry(items[k], start + k) == Some(r[k])
    requires |r| < |items| ==> Entry(items[|r|], start + |r|).None?
    ensures r == BuildFrom(items, start)
    decreases |items|
  {
    if items == [] {
    } else if r == [] {
      assert Entry(items[0], start).None?;
    } else {
      assert Entry(items[0], start) == Some(r[0]);
      forall k | 0 <= k < |r[1..]|
        ensures Entry(items[1..][k], start + 1 + k) == Some(r[1..][k])
      {
        assert Entry(items[k + 1], start + (k + 1)) == Some(r[k + 1]);
      }
      if |r[1..]| < |items[1..]| {
        assert Entry(items[1..][|r[1..]|], start + 1 + |r[1..]|) == Entry(items[|r|], start + |r|);
      }
      BuildFromUnique(items[1..], start + 1, r[1..]);
    }
  }

  /** Well-formed records: a JSON object whose gap is a number. */
  ghost predicate WellFormed(item: Json) {
    item.JObj? && AsNumber(FromDict(item).value.gap).Some?
  }

  /**
   * When every received record is well-formed, the rebuilt list has one entry
   * per record, in the received order, each with the record's own fields and
   * with `y` recomputed from its position, whatever `y` the record carried.
   */
  lemma {:induction false} BuildAllWellFormed(items: seq<Json>)
    requires forall k :: 0 <= k < |items| ==> WellFormed(items[k])
    ensures |Build(items)| == |items|
    ensures forall k :: 0 <= k < |items| ==>
      var s := FromDict(items[k]).value;
      Build(items)[k] == s.(y := JInt(BaseY + k * AsNumber(s.gap).value))
  {
  }
}
