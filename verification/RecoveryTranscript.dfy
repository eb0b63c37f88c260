/** The conversation that replaces a broken continuation: the real messages, the protocol history, and a closing prompt. */
module RecoveryTranscript {
  import opened Options
  import opened Text
  import History
  import HistoryText
  import HistoryBuilder

  /** An input item, sorted by its type: a message with a role, a protocol item, or something that is dropped. */
  datatype InputItem = Message(role: string, content: string) | Protocol(item: History.Item) | Dropped

  /** A turn of the rebuilt conversation; fallback turns are the gateway's own user turns. */
  datatype Turn = Real(role: string, content: string) | Fallback(content: string)

  function Role(t: Turn): string {
    if t.Real? then t.role else "user"
  }

  function RealTurns(items: seq<InputItem>): seq<Turn> {
    if items == [] then []
    else
      var before, x := RealTurns(items[..|items| - 1]), items[|items| - 1];
      if x.Message? then before + [Real(x.role, x.content)] else before
  }

  function Protocols(items: seq<InputItem>): seq<History.Item> {
    if items == [] then []
    else
      var before, x := Protocols(items[..|items| - 1]), items[|items| - 1];
      if x.Protocol? then before + [x.item] else before
  }

  function System(instructions: Option<string>): seq<Turn> {
    if instructions.Some? && !Blank(instructions.value) then [Real("system", instructions.value)] else []
  }

  /** The history turn, if there is any history. */
  function HistoryTurn(items: seq<InputItem>): seq<Turn> {
    var es := History.Listed(Protocols(items));
    if es == [] then [] else [Fallback(HistoryText.Render(es))]
  }

  predicate EndsWithUser(turns: seq<Turn>) {
    turns != [] && turns[|turns| - 1].Real? && turns[|turns| - 1].role == "user"
  }

  /** Real messages in order, then the history if there is any, then a prompt to go on unless a real user speaks last. */
  function Recovered(instructions: Option<string>, items: seq<InputItem>): seq<Turn> {
    var turns := System(instructions) + RealTurns(items) + HistoryTurn(items);
    if EndsWithUser(turns) then turns else turns + [Fallback("continue")]
  }

  class FlatBuilder {
    var turns: seq<Turn>

    constructor ()
      ensures turns == []
    {
      turns := [];
    }

    method AppendRealMessage(role: string, content: string)
      modifies this
      ensures turns == old(turns) + [Real(role, content)]
    {
      turns := turns + [Real(role, content)];
    }

    method AppendRecoveryHistory(text: string)
      modifies this
      ensures turns == if Blank(text) then old(turns) else old(turns) + [Fallback(text)]
    {
      if Blank(text) {
        return;
      }
      turns := turns + [Fallback(text)];
    }

    method AppendContinueIfNeeded()
      modifies this
      ensures turns == if EndsWithUser(old(turns)) then old(turns) else old(turns) + [Fallback("continue")]
    {
      if |turns| > 0 {
        var last := turns[|turns| - 1];
        if last.Real? && last.role == "user" {
          return;
        }
      }
      turns := turns + [Fallback("continue")];
    }
  }

  /** The pass over the input items, collecting messages and history side by side. */
  method Recover(instructions: Option<string>, items: seq<InputItem>) returns (turns: seq<Turn>)
    ensures turns == Recovered(instructions, items)
  {
    hide *;
    var flat := new FlatBuilder();
    if instructions.Some? && !Blank(instructions.value) {
      flat.AppendRealMessage("system", instructions.value);
    }
    var protocol: seq<History.Item> := [];
    Nothing(instructions);
    assert items[..0] == [];
    for i := 0 to |items|
      invariant flat.turns == System(instructions) + RealTurns(items[..i])
      invariant protocol == Protocols(items[..i]) && fresh(flat)
    {
      assert items[..i + 1] == items[..i] + [items[i]];
      ItemsSnoc(items[..i], items[i]);
      match items[i] {
        case Message(role, content) => flat.AppendRealMessage(role, content);
        case Protocol(item) => protocol := protocol + [item];
        case Dropped =>
      }
    }
    assert items[..|items|] == items;
    var text := HistoryBuilder.BuildHistory(protocol);
    flat.AppendRecoveryHistory(text);
    flat.AppendContinueIfNeeded();
    turns := flat.turns;
    RecoveredIs(instructions, items, text);
  }

  lemma RecoveredIs(instructions: Option<string>, items: seq<InputItem>, text: string)
    requires text == HistoryText.Render(History.Listed(Protocols(items)))
    ensures Recovered(instructions, items) ==
      var spoken := System(instructions) + RealTurns(items);
      var turns := if Blank(text) then spoken else spoken + [Fallback(text)];
      if EndsWithUser(turns) then turns else turns + [Fallback("continue")]
  {
    hide History.Listed, HistoryText.Render, Blank;
    RenderBlank(History.Listed(Protocols(items)));
    if Blank(text) {
      assert System(instructions) + RealTurns(items) + [] == System(instructions) + RealTurns(items);
    }
  }

  lemma ItemsSnoc(items: seq<InputItem>, x: InputItem)
    ensures RealTurns(items + [x]) == if x.Message? then RealTurns(items) + [Real(x.role, x.content)] else RealTurns(items)
    ensures Protocols(items + [x]) == if x.Protocol? then Protocols(items) + [x.item] else Protocols(items)
  {
    assert (items + [x])[..|items|] == items;
  }

  lemma Nothing(instructions: Option<string>)
    ensures RealTurns([]) == [] && Protocols([]) == []
    ensures System(instructions) ==
      if instructions.Some? && !Blank(instructions.value) then [Real("system", instructions.value)] else []
  {
  }

  /** Only an empty history renders as nothing. */
  lemma RenderBlank(es: seq<History.Entry>)
    ensures Blank(HistoryText.Render(es)) <==> es == []
  {
    hide HistoryText.RenderViews, HistoryText.Views, HistoryText.Enclosed, Digits, Blank;
    if es == [] {
      BlankEmpty();
    } else {
      assert HistoryText.Opening[0] == '<';
      assert HistoryText.Render(es)[0] == '<';
      VisibleStart(HistoryText.Render(es));
    }
  }

  lemma {:induction false} RealTurnsAreReal(items: seq<InputItem>)
    ensures forall t | t in RealTurns(items) :: t.Real?
  {
    if items != [] {
      RealTurnsAreReal(items[..|items| - 1]);
    }
  }

  lemma SpokenAreReal(instructions: Option<string>, items: seq<InputItem>)
    ensures forall i | 0 <= i < |System(instructions) + RealTurns(items)| :: (System(instructions) + RealTurns(items))[i].Real?
  {
    hide RealTurns, Blank;
    RealTurnsAreReal(items);
    var first: seq<Turn>, more: seq<Turn> := System(instructions), RealTurns(items);
    forall i | 0 <= i < |first + more|
      ensures (first + more)[i].Real?
    {
      if i >= |first| {
        assert more[i - |first|] in more;
      }
    }
  }

  /** Turns that are all real come before the gateway's own ones. */
  ghost predicate RealFirst(turns: seq<Turn>) {
    forall i, j | 0 <= i < j < |turns| && turns[j].Real? :: turns[i].Real?
  }

  lemma Closed(spoken: seq<Turn>, history: seq<Turn>)
    requires (forall i | 0 <= i < |spoken| :: spoken[i].Real?) && |history| <= 1 && (history != [] ==> history[0].Fallback?)
    ensures RealFirst(spoken + history) && RealFirst(spoken + history + [Fallback("continue")])
    ensures history != [] ==> !EndsWithUser(spoken + history)
  {
  }

  /** The conversation always ends with a user turn, and any history block in it comes after every real message. */
  lemma EndsForUser(instructions: Option<string>, items: seq<InputItem>)
    ensures var turns := Recovered(instructions, items);
      && turns != [] && Role(turns[|turns| - 1]) == "user" && RealFirst(turns)
      && (History.Listed(Protocols(items)) != [] ==> turns[|turns| - 1] == Fallback("continue"))
  {
    hide History.Listed, HistoryText.Render, RealTurns, System, Protocols, RealFirst;
    SpokenAreReal(instructions, items);
    Closed(System(instructions) + RealTurns(items), HistoryTurn(items));
  }
}
