/** Snapshot and verification of tool schemas: the difference between two tool lists. */
module ToolSchemas {
  datatype Tool = Tool(name: string, schema: string)

  /** `SchemaChangeEvent`; the empty hash stands for a tool that is not there. */
  datatype SchemaChangeEvent = SchemaChangeEvent(toolName: string, originalHash: string, currentHash: string)

  /** Hashes by name; of tools with the same name the last counts. */
  function HashesOf(hash: string -> string, tools: seq<Tool>): map<string, string> {
    if tools == [] then map[]
    else HashesOf(hash, tools[..|tools| - 1])[tools[|tools| - 1].name := hash(tools[|tools| - 1].schema)]
  }

  function NamesOf(tools: seq<Tool>): set<string> {
    set t | t in tools :: t.name
  }

  predicate UniqueNames(tools: seq<Tool>) {
    tools == [] || (tools[|tools| - 1].name !in NamesOf(tools[..|tools| - 1]) && UniqueNames(tools[..|tools| - 1]))
  }

  /** What the events say has happened to a set of hashes. */
  function Patch(hashes: map<string, string>, changes: seq<SchemaChangeEvent>): map<string, string> {
    if changes == [] then hashes
    else
      var e := changes[|changes| - 1];
      var before := Patch(hashes, changes[..|changes| - 1]);
      if e.currentHash == "" then before - {e.toolName} else before[e.toolName := e.currentHash]
  }

  /** The tool is in the snapshot with the same schema. */
  predicate Matches(hash: string -> string, hashes: map<string, string>, tool: Tool) {
    tool.name in hashes && hashes[tool.name] == hash(tool.schema)
  }

  predicate AllMatch(hash: string -> string, hashes: map<string, string>, tools: seq<Tool>) {
    forall t :: t in tools ==> Matches(hash, hashes, t)
  }

  /** The event for a tool of the current list: none if it matches. */
  function EventsFor(hash: string -> string, hashes: map<string, string>, tool: Tool): seq<SchemaChangeEvent> {
    if tool.name !in hashes then [SchemaChangeEvent(tool.name, "", hash(tool.schema))]
    else if hash(tool.schema) == hashes[tool.name] then []
    else [SchemaChangeEvent(tool.name, hashes[tool.name], hash(tool.schema))]
  }

  /** An event tells the truth: what the hash was and what it is now, of a tool that has changed, come or gone. */
  predicate Truthful(hash: string -> string, hashes: map<string, string>, tools: seq<Tool>, e: SchemaChangeEvent) {
    && e.originalHash == (if e.toolName in hashes then hashes[e.toolName] else "")
    && e.originalHash != e.currentHash
    && if e.toolName in NamesOf(tools) then exists t :: t in tools && t.name == e.toolName && HashIs(hash, t, e)
       else e.currentHash == ""
  }

  predicate HashIs(hash: string -> string, tool: Tool, e: SchemaChangeEvent) {
    hash(tool.schema) == e.currentHash
  }

  lemma EventIsTruthful(hash: string -> string, hashes: map<string, string>, tools: seq<Tool>, tool: Tool)
    requires tool in tools && hash(tool.schema) != ""
    ensures forall e :: e in EventsFor(hash, hashes, tool) ==> Truthful(hash, hashes, tools, e)
  {
  }

  lemma StillTruthful(hash: string -> string, hashes: map<string, string>, tools: seq<Tool>, tool: Tool,
                      e: SchemaChangeEvent)
    requires Truthful(hash, hashes, tools, e) && e.toolName in NamesOf(tools)
    ensures Truthful(hash, hashes, tools + [tool], e)
  {
    NamesSnoc(tools, tool);
    var t :| t in tools && t.name == e.toolName && HashIs(hash, t, e);
    assert t in tools + [tool];
  }

  /** The tools of a name all match. */
  predicate NameMatches(hash: string -> string, hashes: map<string, string>, tools: seq<Tool>, name: string) {
    forall t :: t in tools && t.name == name ==> Matches(hash, hashes, t)
  }

  /** The last tool of the name, which its current hash is of, matches. */
  predicate LastMatches(hash: string -> string, hashes: map<string, string>, tools: seq<Tool>, name: string) {
    name in hashes && name in HashesOf(hash, tools) && HashesOf(hash, tools)[name] == hashes[name]
  }

  /** Wherever the last tool of a name matches, the others of that name do. */
  predicate LastDecides(hash: string -> string, hashes: map<string, string>, tools: seq<Tool>) {
    forall t :: t in tools && LastMatches(hash, hashes, tools, t.name) ==> Matches(hash, hashes, t)
  }

  /**
   What the hash of a name is patched to by comparing the tools: the last hash that did not match, if there is
   one.
   */
  predicate PatchedName(hash: string -> string, hashes: map<string, string>, tools: seq<Tool>,
                        patched: map<string, string>, name: string)
    requires name in patched
  {
    && (name in hashes ==> (patched[name] == hashes[name] <==> NameMatches(hash, hashes, tools, name)))
    && (name in HashesOf(hash, tools) && !LastMatches(hash, hashes, tools, name)
        ==> patched[name] == HashesOf(hash, tools)[name])
  }

  predicate Patched(hash: string -> string, hashes: map<string, string>, tools: seq<Tool>,
                    patched: map<string, string>)
  {
    && patched.Keys == hashes.Keys + NamesOf(tools)
    && forall name :: name in patched ==> PatchedName(hash, hashes, tools, patched, name)
  }

  lemma CompareStep(hash: string -> string, hashes: map<string, string>, tools: seq<Tool>,
                    changes: seq<SchemaChangeEvent>, tool: Tool)
    requires hash(tool.schema) != "" && Patched(hash, hashes, tools, Patch(hashes, changes))
    ensures Patched(hash, hashes, tools + [tool], Patch(hashes, changes + EventsFor(hash, hashes, tool)))
  {
    var before := Patch(hashes, changes);
    NamesSnoc(tools, tool);
    if EventsFor(hash, hashes, tool) == [] {
      assert changes + [] == changes;
      assert before.Keys == hashes.Keys + NamesOf(tools + [tool]);
      PatchedStep(hash, hashes, tools, before, tool, before);
    } else {
      PatchSnoc(hashes, changes, EventsFor(hash, hashes, tool)[0]);
      PatchedStep(hash, hashes, tools, before, tool, before[tool.name := hash(tool.schema)]);
    }
  }

  lemma PatchedStep(hash: string -> string, hashes: map<string, string>, tools: seq<Tool>, before: map<string, string>,
                    tool: Tool, after: map<string, string>)
    requires Patched(hash, hashes, tools, before) && after.Keys == hashes.Keys + NamesOf(tools + [tool])
    requires after == if Matches(hash, hashes, tool) then before else before[tool.name := hash(tool.schema)]
    ensures Patched(hash, hashes, tools + [tool], after)
  {
    forall name | name in after ensures PatchedName(hash, hashes, tools + [tool], after, name) {
      HashSnoc(hash, tools, tool);
      NameMatchesSnoc(hash, hashes, tools, tool, name);
      if name != tool.name { assert name in before && PatchedName(hash, hashes, tools, before, name); }
      else if name in before { assert PatchedName(hash, hashes, tools, before, name); }
    }
  }

  lemma HashSnoc(hash: string -> string, tools: seq<Tool>, tool: Tool)
    ensures HashesOf(hash, tools + [tool]) == HashesOf(hash, tools)[tool.name := hash(tool.schema)]
  {
    assert (tools + [tool])[..|tools|] == tools;
  }

  lemma NameMatchesSnoc(hash: string -> string, hashes: map<string, string>, tools: seq<Tool>, tool: Tool, name: string)
    ensures NameMatches(hash, hashes, tools + [tool], name)
            <==> NameMatches(hash, hashes, tools, name) && (tool.name == name ==> Matches(hash, hashes, tool))
  {
    assert (tools + [tool])[|tools|] == tool;
    if NameMatches(hash, hashes, tools + [tool], name) {
      forall t | t in tools && t.name == name ensures Matches(hash, hashes, t) { assert t in tools + [tool]; }
    }
  }

  /** Comparing patches the snapshot to the current hashes exactly if the last tool of each name decides. */
  lemma PatchedIff(hash: string -> string, hashes: map<string, string>, tools: seq<Tool>, patched: map<string, string>)
    requires Patched(hash, hashes, tools, patched)
    ensures patched == hashes + HashesOf(hash, tools) <==> LastDecides(hash, hashes, tools)
    ensures patched - (hashes.Keys - NamesOf(tools)) == HashesOf(hash, tools) <==> LastDecides(hash, hashes, tools)
  {
    var current, rest := HashesOf(hash, tools), patched - (hashes.Keys - NamesOf(tools));
    HashedNames(hash, tools);
    if LastDecides(hash, hashes, tools) {
      forall name | name in current ensures patched[name] == current[name] {
        PatchedTo(hash, hashes, tools, patched, name);
      }
      forall name | name in patched && name !in current ensures patched[name] == hashes[name] {
        assert PatchedName(hash, hashes, tools, patched, name) && NameMatches(hash, hashes, tools, name);
      }
    } else {
      var t :| t in tools && LastMatches(hash, hashes, tools, t.name) && !Matches(hash, hashes, t);
      assert PatchedName(hash, hashes, tools, patched, t.name) && rest[t.name] != current[t.name];
    }
  }

  lemma PatchedTo(hash: string -> string, hashes: map<string, string>, tools: seq<Tool>, patched: map<string, string>,
                  name: string)
    requires Patched(hash, hashes, tools, patched) && LastDecides(hash, hashes, tools)
    requires name in patched && name in HashesOf(hash, tools)
    ensures patched[name] == HashesOf(hash, tools)[name]
  {
    assert PatchedName(hash, hashes, tools, patched, name);
    if LastMatches(hash, hashes, tools, name) {
      forall t | t in tools && t.name == name ensures Matches(hash, hashes, t) { }
    }
  }

  /** It need not if a name occurs twice: here the first tool is new and the last one is as it was. */
  lemma LastNeedNotDecide(hash: string -> string, name: string, was: string, now: string)
    requires hash(now) != hash(was)
    ensures !LastDecides(hash, map[name := hash(was)], [Tool(name, now), Tool(name, was)])
  {
    var tools := [Tool(name, now), Tool(name, was)];
    assert tools[0] in tools && tools[..1] == [tools[0]];
  }

  /** It always does if no name occurs twice. */
  lemma UniqueDecides(hash: string -> string, hashes: map<string, string>, tools: seq<Tool>)
    requires UniqueNames(tools)
    ensures LastDecides(hash, hashes, tools)
  {
    forall t | t in tools && LastMatches(hash, hashes, tools, t.name) ensures Matches(hash, hashes, t) {
      HashOf(hash, tools, t);
    }
  }

  lemma AllMatchSnoc(hash: string -> string, hashes: map<string, string>, tools: seq<Tool>, tool: Tool)
    ensures AllMatch(hash, hashes, tools + [tool])
            <==> AllMatch(hash, hashes, tools) && EventsFor(hash, hashes, tool) == []
  {
    assert (tools + [tool])[|tools|] == tool;
    if AllMatch(hash, hashes, tools + [tool]) {
      assert tool in tools + [tool];
      assert Matches(hash, hashes, tool);
      forall t | t in tools ensures Matches(hash, hashes, t) { assert t in tools + [tool]; }
    }
  }

  lemma RemoveStep(hashes: map<string, string>, gone: set<string>, name: string)
    ensures hashes - gone - {name} == hashes - (gone + {name})
  {
  }

  lemma PatchSnoc(hashes: map<string, string>, changes: seq<SchemaChangeEvent>, e: SchemaChangeEvent)
    ensures Patch(hashes, changes + [e])
            == if e.currentHash == "" then Patch(hashes, changes) - {e.toolName}
               else Patch(hashes, changes)[e.toolName := e.currentHash]
  {
    assert (changes + [e])[..|changes|] == changes;
  }

  lemma NamesSnoc(tools: seq<Tool>, tool: Tool)
    ensures NamesOf(tools + [tool]) == NamesOf(tools) + {tool.name}
  {
    assert (tools + [tool])[|tools|] == tool;
    forall t | t in tools ensures t in tools + [tool] { }
  }

  lemma {:induction false} HashedNames(hash: string -> string, tools: seq<Tool>)
    ensures HashesOf(hash, tools).Keys == NamesOf(tools)
  {
    if tools != [] {
      var init := tools[..|tools| - 1];
      HashedNames(hash, init);
      NamesSnoc(init, tools[|tools| - 1]);
      assert tools == init + [tools[|tools| - 1]];
    }
  }

  class ToolSchemaRegistry {
    const hash: string -> string
    var snapshots: map<string, string>

    /** No schema has the empty hash. */
    ghost predicate Hashes() {
      forall s :: hash(s) != ""
    }

    /** So neither has any in the snapshot. */
    ghost predicate Valid()
      reads this
    {
      Hashes() && forall name :: name in snapshots ==> snapshots[name] != ""
    }

    constructor (hash: string -> string)
      ensures this.hash == hash && snapshots == map[]
      ensures Hashes() ==> Valid()
    {
      this.hash, snapshots := hash, map[];
    }

    /** `snapshot`. */
    method Snapshot(tools: seq<Tool>)
      modifies this
      ensures snapshots == HashesOf(hash, tools)
      ensures Hashes() ==> Valid()
    {
      snapshots := map[];
      for i := 0 to |tools|
        invariant snapshots == HashesOf(hash, tools[..i]) && (Hashes() ==> Valid())
      {
        assert tools[..i + 1][..i] == tools[..i];
        snapshots := snapshots[tools[i].name := hash(tools[i].schema)];
      }
      assert tools[..|tools|] == tools;
    }

    /** The first loop of `verify`: new and changed tools. */
    method CompareCurrent(tools: seq<Tool>) returns (changes: seq<SchemaChangeEvent>, names: set<string>)
      requires Valid()
      ensures names == NamesOf(tools) && (changes == [] <==> AllMatch(hash, snapshots, tools))
      ensures Patched(hash, snapshots, tools, Patch(snapshots, changes))
      ensures forall e :: e in changes ==> e.toolName in names && Truthful(hash, snapshots, tools, e)
      ensures Patch(snapshots, changes) == snapshots + HashesOf(hash, tools) <==> LastDecides(hash, snapshots, tools)
    {
      changes, names := [], {};
      for i := 0 to |tools|
        invariant names == NamesOf(tools[..i])
        invariant changes == [] <==> AllMatch(hash, snapshots, tools[..i])
        invariant Patched(hash, snapshots, tools[..i], Patch(snapshots, changes))
        invariant forall e :: e in changes ==> e.toolName in names && Truthful(hash, snapshots, tools[..i], e)
      {
        var tool := tools[i];
        assert tools[..i + 1] == tools[..i] + [tool];
        NamesSnoc(tools[..i], tool);
        AllMatchSnoc(hash, snapshots, tools[..i], tool);
        CompareStep(hash, snapshots, tools[..i], changes, tool);
        names := names + {tool.name};
        var current := hash(tool.schema);
        ghost var before := changes;
        if tool.name !in snapshots {
          changes := changes + [SchemaChangeEvent(tool.name, "", current)];
        } else if current != snapshots[tool.name] {
          changes := changes + [SchemaChangeEvent(tool.name, snapshots[tool.name], current)];
        }
        assert changes == before + EventsFor(hash, snapshots, tool);
        forall e | e in before ensures Truthful(hash, snapshots, tools[..i + 1], e) {
          StillTruthful(hash, snapshots, tools[..i], tool, e);
        }
        EventIsTruthful(hash, snapshots, tools[..i + 1], tool);
      }
      assert tools[..|tools|] == tools;
      PatchedIff(hash, snapshots, tools, Patch(snapshots, changes));
    }

    /** The second loop: tools that are gone, in any order. */
    method AddRemoved(names: set<string>, before: seq<SchemaChangeEvent>) returns (changes: seq<SchemaChangeEvent>)
      ensures changes == [] <==> before == [] && snapshots.Keys <= names
      ensures Patch(snapshots, changes) == Patch(snapshots, before) - (snapshots.Keys - names)
      ensures forall e :: e in changes && e !in before ==>
                e.toolName in snapshots && e.toolName !in names
                && e.originalHash == snapshots[e.toolName] && e.currentHash == ""
    {
      changes := before;
      var todo := snapshots.Keys - names;
      ghost var gone: set<string> := {};
      assert Patch(snapshots, before) - gone == Patch(snapshots, before);
      while todo != {}
        invariant todo + gone == snapshots.Keys - names
        invariant changes == [] <==> before == [] && gone == {}
        invariant Patch(snapshots, changes) == Patch(snapshots, before) - gone
        invariant forall e :: e in changes && e !in before ==>
                    e.toolName in gone && e.originalHash == snapshots[e.toolName] && e.currentHash == ""
        decreases |todo|
      {
        var name :| name in todo;
        var event := SchemaChangeEvent(name, snapshots[name], "");
        PatchSnoc(snapshots, changes, event);
        RemoveStep(Patch(snapshots, before), gone, name);
        changes, todo, gone := changes + [event], todo - {name}, gone + {name};
      }
      assert gone == snapshots.Keys - names;
    }

    /**
     `verify`: every event is truthful; there is no event exactly if every tool matches the snapshot and none is
     gone; and the events turn the snapshot into the current hashes exactly if the last tool of each name
     decides, as it does when no name occurs twice.
     */
    method Verify(tools: seq<Tool>) returns (changes: seq<SchemaChangeEvent>)
      requires Valid()
      ensures forall e :: e in changes ==> Truthful(hash, snapshots, tools, e)
      ensures changes == [] <==> AllMatch(hash, snapshots, tools) && snapshots.Keys <= NamesOf(tools)
      ensures Patch(snapshots, changes) == HashesOf(hash, tools) <==> LastDecides(hash, snapshots, tools)
      ensures UniqueNames(tools) ==> Patch(snapshots, changes) == HashesOf(hash, tools)
    {
      var names: set<string>;
      changes, names := CompareCurrent(tools);
      PatchedIff(hash, snapshots, tools, Patch(snapshots, changes));
      changes := AddRemoved(names, changes);
      if UniqueNames(tools) { UniqueDecides(hash, snapshots, tools); }
    }
  }

  /** A snapshot matches a list of tools with unique names exactly if it holds their hashes. */
  lemma {:induction false} MatchMeansEqual(hash: string -> string, hashes: map<string, string>, tools: seq<Tool>)
    requires UniqueNames(tools)
    ensures AllMatch(hash, hashes, tools) && hashes.Keys <= NamesOf(tools) <==> hashes == HashesOf(hash, tools)
  {
    HashedNames(hash, tools);
    forall t | t in tools ensures Matches(hash, HashesOf(hash, tools), t) { HashOf(hash, tools, t); }
    if AllMatch(hash, hashes, tools) && hashes.Keys <= NamesOf(tools) {
      forall name | name in NamesOf(tools) ensures name in hashes && hashes[name] == HashesOf(hash, tools)[name] {
        var t :| t in tools && t.name == name;
        assert Matches(hash, hashes, t) && Matches(hash, HashesOf(hash, tools), t);
      }
    }
  }

  lemma {:induction false} HashOf(hash: string -> string, tools: seq<Tool>, t: Tool)
    requires UniqueNames(tools) && t in tools
    ensures Matches(hash, HashesOf(hash, tools), t)
  {
    var init, last := tools[..|tools| - 1], tools[|tools| - 1];
    assert tools == init + [last];
    if t != last { HashOf(hash, init, t); }
  }
}
