/**
 * The dialogue state of src/ui/dialogue.py: the `DialogueTree` of nodes
 * reached by picking a numbered choice, and the `DialogueBox` that shows a
 * speaker, a text and a list of choice labels while it is active.
 *
 * A node's choices are an ordered dictionary `{label: next node id}`, given
 * here as its list of items in insertion order; `dict.keys()` and
 * `dict.items()` walk that list.
 */
module Dialogue {
  import opened Wrappers

  /** A stored node: who speaks, what they say, and the labelled choices with their next node ids. */
  datatype Node = Node(speaker: string, text: string, choices: seq<(string, string)>)

  /** What `get_current_dialogue` hands to the screen. */
  datatype Shown = Shown(speaker: string, text: string, choices: seq<string>)

  /**
   * The tree has a node to show: the current id is set (neither `None` nor
   * the empty string, which Python treats as false) and names a stored node.
   */
  predicate Selected(nodes: map<string, Node>, current: Option<string>) {
    current.Some? && current.value != "" && current.value in nodes
  }

  /** `list(choices.keys())`: the labels, in order. */
  function Labels(choices: seq<(string, string)>): (labels: seq<string>)
    ensures |labels| == |choices|
    ensures forall i :: 0 <= i < |choices| ==> labels[i] == choices[i].0
  {
    if choices == [] then [] else [choices[0].0] + Labels(choices[1..])
  }

  /**
   * `get_current_dialogue`: nothing when no node is selected; otherwise the
   * node's speaker and text with its choice labels.
   */
  function Current(nodes: map<string, Node>, current: Option<string>): (r: Option<Shown>)
    ensures r.Some? <==> Selected(nodes, current)
    ensures r.Some? ==> r.value.speaker == nodes[current.value].speaker && r.value.text == nodes[current.value].text
    ensures r.Some? ==> |r.value.choices| == |nodes[current.value].choices|
  {
    if !Selected(nodes, current) then None
    else
      var node := nodes[current.value];
      Some(Shown(node.speaker, node.text, Labels(node.choices)))
  }

  /**
   * `choose(index)`: with a selected node and an index within its choices,
   * the next node id of that choice becomes current and the choice is
   * accepted; in every other case nothing moves and it is refused.
   */
  function Choose(nodes: map<string, Node>, current: Option<string>, index: int): (r: (Option<string>, bool))
    ensures r.1 <==> Selected(nodes, current) && 0 <= index < |nodes[current.value].choices|
    ensures r.1 ==> r.0 == Some(nodes[current.value].choices[index].1)
    ensures !r.1 ==> r.0 == current
  {
    if !Selected(nodes, current) then (current, false)
    else
      var choices := nodes[current.value].choices;
      if 0 <= index < |choices| then (Some(choices[index].1), true) else (current, false)
  }

  /** The choice at a shown position leads to the node paired with the label shown there. */
  lemma ChoiceFollowsLabel(nodes: map<string, Node>, current: Option<string>, index: int)
    requires Current(nodes, current).Some? && 0 <= index < |Current(nodes, current).value.choices|
    ensures Choose(nodes, current, index).1
    ensures (Current(nodes, current).value.choices[index], Choose(nodes, current, index).0.value)
            == nodes[current.value].choices[index]
  {
  }

  /** Every choice of every node leads to a stored node with a non-empty id. */
  ghost predicate Closed(nodes: map<string, Node>) {
    forall id, i :: id in nodes && 0 <= i < |nodes[id].choices| ==>
      nodes[id].choices[i].1 != "" && nodes[id].choices[i].1 in nodes
  }

  /**
   * The current node after choosing each index in turn. A conversation that
   * has no node selected ignores every choice.
   */
  function Follow(nodes: map<string, Node>, current: Option<string>, indices: seq<int>): (r: Option<string>)
    ensures !Selected(nodes, current) ==> r == current
    decreases |indices|
  {
    if indices == [] then current else Follow(nodes, Choose(nodes, current, indices[0]).0, indices[1..])
  }

  /** In a closed tree a started conversation always has something to show, whatever is chosen. */
  lemma {:induction false} ClosedTreeKeepsTalking(nodes: map<string, Node>, current: Option<string>, indices: seq<int>)
    requires Closed(nodes) && Selected(nodes, current)
    ensures Current(nodes, Follow(nodes, current, indices)).Some?
    decreases |indices|
  {
    if indices != [] {
      var next := Choose(nodes, current, indices[0]).0;
      assert Selected(nodes, next);
      ClosedTreeKeepsTalking(nodes, next, indices[1..]);
    }
  }

  /** With no node selected no choice is accepted, so the tree stays where it is. */
  lemma {:induction false} UnselectedTreeStays(nodes: map<string, Node>, current: Option<string>, indices: seq<int>)
    requires !Selected(nodes, current)
    ensures Follow(nodes, current, indices) == current
    decreases |indices|
  {
    if indices != [] {
      UnselectedTreeStays(nodes, current, indices[1..]);
    }
  }

  /** A node that was just added and then started is shown as it was given. */
  lemma AddThenShow(nodes: map<string, Node>, id: string, speaker: string, text: string, choices: seq<(string, string)>)
    requires id != ""
    ensures Current(nodes[id := Node(speaker, text, choices)], Some(id)) == Some(Shown(speaker, text, Labels(choices)))
  {
  }

  class DialogueTree {
    var nodes: map<string, Node>
    /** `current_node`: `None` until a conversation is started. */
    var current: Option<string>

    /** An empty tree with no current node. */
    constructor()
      ensures nodes == map[] && current == None
      ensures Current(nodes, current) == None
    {
      nodes := map[];
      current := None;
    }

    /**
     * `add_node`: stores the node under its id, replacing any node already
     * there; the other nodes and the current id stay. A missing choices
     * dictionary is an empty one.
     */
    method AddNode(id: string, speaker: string, text: string, choices: seq<(string, string)>)
      modifies this
      ensures nodes == old(nodes)[id := Node(speaker, text, choices)]
      ensures forall other :: other != id && other in old(nodes) ==> other in nodes && nodes[other] == old(nodes)[other]
      ensures current == old(current)
    {
      nodes := nodes[id := Node(speaker, text, choices)];
    }

    /** `start`: the given id becomes current, whether or not a node has it. */
    method Start(id: string)
      modifies this
      ensures current == Some(id) && nodes == old(nodes)
      ensures Current(nodes, current).Some? <==> id != "" && id in nodes
    {
      current := Some(id);
    }

    /** `get_current_dialogue`, on this tree's nodes and current id. */
    function CurrentDialogue(): Option<Shown>
      reads this
    {
      Current(nodes, current)
    }

    /** `choose(choice_index)`: moves along an existing choice and says whether it did. */
    method Pick(index: int) returns (ok: bool)
      modifies this
      ensures (current, ok) == Choose(old(nodes), old(current), index)
      ensures nodes == old(nodes)
    {
      if current.None? || current.value == "" || current.value !in nodes {
        return false;
      }
      var choices := nodes[current.value].choices;
      if 0 <= index < |choices| {
        current := Some(choices[index].1);
        return true;
      }
      return false;
    }
  }

  /** The box's default position. */
  const DefaultX: int := 100
  const DefaultY: int := 100

  class DialogueBox {
    var speaker: string
    var text: string
    const x: int
    const y: int
    var choices: seq<string>
    var active: bool

    /** `DialogueBox(speaker, text, x, y)`: hidden, with no choices. */
    constructor(speaker: string, text: string, x: int, y: int)
      ensures this.speaker == speaker && this.text == text && this.x == x && this.y == y
      ensures choices == [] && !active
    {
      this.speaker := speaker;
      this.text := text;
      this.x := x;
      this.y := y;
      choices := [];
      active := false;
    }

    /**
     * `set_dialogue`: new speaker, text and choices, and the box is shown. A
     * missing choice list is an empty one.
     */
    method SetDialogue(speaker: string, text: string, choices: seq<string>)
      modifies this
      ensures this.speaker == speaker && this.text == text && this.choices == choices
      ensures active
    {
      this.speaker := speaker;
      this.text := text;
      this.choices := choices;
      active := true;
    }

    /** `add_choice`: one more label at the end. */
    method AddChoice(choice: string)
      modifies this
      ensures choices == old(choices) + [choice]
      ensures speaker == old(speaker) && text == old(text) && active == old(active)
    {
      choices := choices + [choice];
    }

    /** `clear_choices`. */
    method ClearChoices()
      modifies this
      ensures choices == []
      ensures speaker == old(speaker) && text == old(text) && active == old(active)
    {
      choices := [];
    }

    /** `close`: hidden, with no choices left; speaker and text stay. */
    method Close()
      modifies this
      ensures !active && choices == []
      ensures speaker == old(speaker) && text == old(text)
    {
      active := false;
      ClearChoices();
    }

    /** `is_active`: shown since the last `set_dialogue`, and not closed since. */
    function IsActive(): bool
      reads this
    {
      active
    }
  }
}
