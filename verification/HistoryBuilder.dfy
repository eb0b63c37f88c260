/** The builder of the recovery history: its list and its directory of tools share their entries. */
module HistoryBuilder {
  import opened Text
  import opened History
  import HistoryText

  /** An entry that several places point to. */
  class Cell {
    var entry: Entry

    constructor (entry: Entry)
      ensures this.entry == entry
    {
      this.entry := entry;
    }
  }

  class Builder {
    var entries: seq<Cell>
    var tools: map<string, Cell>
    ghost var Repr: set<object>

    /** The list and the directory point to the same cells: a tool's cell is listed at the first entry with its id. */
    ghost predicate Valid()
      reads this, Repr
    {
      && this in Repr && (forall k | 0 <= k < |entries| :: entries[k] in Repr)
      && (forall i, j | 0 <= i < j < |entries| :: entries[i] != entries[j])
      && (forall id | id in tools :: id != "" && exists k :: 0 <= k < |entries| && entries[k] == tools[id] && IsTool(k, id))
      && (forall k | 0 <= k < |entries| && entries[k].entry.ToolEntry? && entries[k].entry.callId != "" ::
            entries[k].entry.callId in tools && tools[entries[k].entry.callId] == entries[k])
    }

    ghost predicate IsTool(k: nat, id: string)
      requires k < |entries|
      reads this, entries[k]
    {
      entries[k].entry.ToolEntry? && entries[k].entry.callId == id
    }

    ghost function Contents(): (es: seq<Entry>)
      requires Valid()
      reads this, Repr
      ensures |es| == |entries|
    {
      seq(|entries|, k requires 0 <= k < |entries| reads Repr, this requires Valid() => entries[k].entry)
    }

    constructor ()
      ensures Valid() && Contents() == [] && fresh(Repr)
    {
      entries, tools := [], map[];
      Repr := {this};
    }

    /** The directory finds the first entry with an id. */
    lemma FindTool(id: string)
      requires Valid() && id != ""
      ensures id in tools ==> Find(Contents(), id) < |entries| && entries[Find(Contents(), id)] == tools[id]
      ensures id !in tools ==> Find(Contents(), id) == |entries|
    {
      if id in tools {
        var k :| 0 <= k < |entries| && entries[k] == tools[id] && IsTool(k, id);
        forall m | 0 <= m < k
          ensures !(Contents()[m].ToolEntry? && Contents()[m].callId == id)
        {
        }
        FindFirst(Contents(), id, k);
      } else {
        FindNone(Contents(), id);
      }
    }

    method Append(e: Entry) returns (cell: Cell)
      requires Valid() && (e.ToolEntry? && e.callId != "" ==> e.callId !in tools)
      modifies this
      ensures fresh(cell) && cell.entry == e && entries == old(entries) + [cell] && Repr == old(Repr) + {cell}
      ensures tools == if e.ToolEntry? && e.callId != "" then old(tools)[e.callId := cell] else old(tools)
      ensures Valid() && Contents() == old(Contents()) + [e]
    {
      cell := new Cell(e);
      entries := entries + [cell];
      Repr := Repr + {cell};
      if e.ToolEntry? && e.callId != "" {
        tools := tools[e.callId := cell];
      }
      ghost var n := |entries| - 1;
      forall id | id in tools
        ensures id != "" && exists k :: 0 <= k < |entries| && entries[k] == tools[id] && IsTool(k, id)
      {
        if id in old(tools) && tools[id] == old(tools)[id] {
          var k :| 0 <= k < n && old(entries)[k] == old(tools)[id] && old(IsTool(k, id));
          assert entries[k] == tools[id] && IsTool(k, id);
        } else {
          assert entries[n] == tools[id] && IsTool(n, id);
        }
      }
    }

    method AddReasoning(item: Item)
      requires Valid() && item.Reasoning?
      modifies this
      ensures Valid() && fresh(Repr - old(Repr)) && Contents() == Add(old(Contents()), item)
    {
      var summary := item.summary;
      if Blank(summary) {
        if Blank(item.encrypted) {
          return;
        }
        summary := Undecipherable;
      }
      var cell := Append(ReasoningEntry(summary));
    }

    /** The shared cell of a call id, made on its first appearance; an empty id always gets a cell of its own. */
    method ToolCell(callId: string) returns (cell: Cell, ghost k: nat)
      requires Valid()
      modifies this
      ensures Valid() && fresh(Repr - old(Repr)) && k < |entries| && entries[k] == cell && cell in Repr
      ensures k == if callId == "" then |old(entries)| else Find(old(Contents()), callId)
      ensures Contents() ==
              if k < |old(entries)| then old(Contents()) else old(Contents()) + [ToolEntry(callId, "", "", "")]
      ensures cell.entry.ToolEntry? && cell.entry.callId == callId && Contents()[k] == cell.entry
    {
      if callId != "" {
        FindTool(callId);
        if callId in tools {
          k := Find(Contents(), callId);
          return tools[callId], k;
        }
      }
      k := |entries|;
      cell := Append(ToolEntry(callId, "", "", ""));
    }

    /** Writes through a shared cell; its id does not change. */
    method Write(cell: Cell, ghost k: nat, e: Entry)
      requires Valid() && k < |entries| && entries[k] == cell && cell in Repr
      requires cell.entry.ToolEntry? && e.ToolEntry? && e.callId == cell.entry.callId
      modifies cell
      ensures Valid() && Contents() == old(Contents())[k := e]
    {
      cell.entry := e;
      forall id | id in tools
        ensures exists j :: 0 <= j < |entries| && entries[j] == tools[id] && IsTool(j, id)
      {
        var j :| 0 <= j < |entries| && entries[j] == tools[id] && old(IsTool(j, id));
        assert IsTool(j, id);
      }
    }

    method AddToolCall(item: Item)
      requires Valid() && item.Call?
      modifies this, Repr
      ensures Valid() && fresh(Repr - old(Repr)) && Contents() == Add(old(Contents()), item)
    {
      hide Find, TrimSpace, Valid, Contents;
      var callId := TrimSpace(item.callId);
      var cell, k := ToolCell(callId);
      Write(cell, k, cell.entry.(name := TrimSpace(item.name), arguments := item.arguments));
    }

    method AddToolResult(item: Item)
      requires Valid() && item.Result?
      modifies this, Repr
      ensures Valid() && fresh(Repr - old(Repr)) && Contents() == Add(old(Contents()), item)
    {
      hide Find, TrimSpace, Valid, Contents;
      var callId := TrimSpace(item.callId);
      var cell, k := ToolCell(callId);
      Write(cell, k, cell.entry.(result := item.output));
    }

    method Render() returns (out: string)
      requires Valid()
      ensures out == HistoryText.Render(Contents())
    {
      hide *;
      SameLength();
      if |entries| == 0 {
        EmptyRender();
        return "";
      }
      var start := 0;
      if |entries| > HistoryText.MaxEntries {
        start := |entries| - HistoryText.MaxEntries;
      }
      out := HistoryText.Header;
      if start > 0 {
        out := out + HistoryText.Enclosed(HistoryText.Omitted, Digits(start) + HistoryText.OmittedText);
      }
      var views := RenderFrom(start);
      RenderParts(Contents(), start, views);
      out := out + views + HistoryText.Footer;
    }

    lemma SameLength()
      requires Valid()
      ensures |Contents()| == |entries|
    {
    }

    /** The loop over the shown entries. */
    method RenderFrom(start: nat) returns (out: string)
      requires Valid() && start <= |entries|
      ensures out == HistoryText.RenderViews(HistoryText.Views(Contents()[start..]))
    {
      hide HistoryText.RenderView, HistoryText.ViewOf;
      ghost var es := Contents();
      ghost var shown := HistoryText.Views(es[start..]);
      out := "";
      for i := start to |entries|
        invariant out == HistoryText.RenderViews(shown[..i - start])
      {
        assert shown[..i - start + 1] == shown[..i - start] + [shown[i - start]];
        assert es[start..][i - start] == entries[i].entry;
        RenderSnoc(shown[..i - start], shown[i - start]);
        out := out + HistoryText.RenderView(HistoryText.ViewOf(entries[i].entry));
      }
      assert shown[..|shown|] == shown;
    }
  }

  lemma EmptyRender()
    ensures HistoryText.Render([]) == ""
  {
  }

  /** The block, part by part. */
  lemma RenderParts(es: seq<Entry>, start: nat, views: string)
    requires es != [] && start == (if |es| > HistoryText.MaxEntries then |es| - HistoryText.MaxEntries else 0)
    requires views == HistoryText.RenderViews(HistoryText.Views(es[start..]))
    ensures HistoryText.Render(es) ==
      (if start > 0
       then HistoryText.Header + HistoryText.Enclosed(HistoryText.Omitted, Digits(start) + HistoryText.OmittedText)
       else HistoryText.Header) + views + HistoryText.Footer
  {
    hide HistoryText.RenderViews, HistoryText.Views, HistoryText.Enclosed, Digits, HistoryText.Header, HistoryText.Footer,
         HistoryText.OmittedText, HistoryText.Omitted;
    assert HistoryText.Start(es) == start;
    var note := if start > 0 then HistoryText.Enclosed(HistoryText.Omitted, Digits(start) + HistoryText.OmittedText) else "";
    assert HistoryText.Render(es) == HistoryText.Header + (note + (views + HistoryText.Footer));
    assert HistoryText.Header + (note + (views + HistoryText.Footer)) == (HistoryText.Header + note) + views + HistoryText.Footer;
    assert start == 0 ==> HistoryText.Header + note == HistoryText.Header;
  }

  lemma {:induction false} RenderSnoc(vs: seq<HistoryText.View>, v: HistoryText.View)
    ensures HistoryText.RenderViews(vs + [v]) == HistoryText.RenderViews(vs) + HistoryText.RenderView(v)
  {
    hide HistoryText.RenderView;
    if vs == [] {
      assert [] + [v] == [v] && [v][1..] == [];
    } else {
      assert (vs + [v])[1..] == vs[1..] + [v];
      RenderSnoc(vs[1..], v);
    }
  }

  /** The recovery history of a request's items. */
  method BuildHistory(items: seq<Item>) returns (out: string)
    ensures out == HistoryText.Render(Listed(items))
  {
    hide Add, HistoryText.Render, Listed;
    var b := new Builder();
    for i := 0 to |items|
      invariant b.Valid() && fresh(b.Repr) && b.Contents() == Fold(items[..i])
    {
      match items[i] {
        case Reasoning(_, _) => b.AddReasoning(items[i]);
        case Call(_, _, _) => b.AddToolCall(items[i]);
        case Result(_, _) => b.AddToolResult(items[i]);
      }
      assert items[..i + 1][..i] == items[..i];
    }
    assert items[..|items|] == items;
    FoldIsListed(items);
    out := b.Render();
  }
}
