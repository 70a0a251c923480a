/** When a tool result tells the model to reconsider, from the calls of the run alone. */
module LoopGuidance {
  import opened Options
  import opened Transcript
  import opened LoopDetection
  import opened ToolLoop

  /** The handler of the call is there and returned, and the call used the resource. */
  predicate Uses(setup: Setup, world: World, k: nat, j: nat, resource: string)
    requires j < |Calls(world, k)|
  {
    var call := Calls(world, k)[j];
    call.name in setup.handlers && world.handled(k, j).Returned? && Resource(call.name, call.input) == resource
  }

  /** How many of the calls of the turns before k and of the first j calls of turn k used the resource. */
  function UsesUntil(setup: Setup, world: World, k: nat, j: nat, resource: string): nat
    requires j <= |Calls(world, k)|
    decreases k, j
  {
    if j > 0 then UsesUntil(setup, world, k, j - 1, resource) + if Uses(setup, world, k, j - 1, resource) then 1 else 0
    else if k > 0 then UsesUntil(setup, world, k - 1, |Calls(world, k - 1)|, resource)
    else 0
  }

  /** The tracker counts the calls that came back, and no call that is unknown or raised. */
  lemma {:induction false} LogCountsUses(setup: Setup, world: World, k: nat, j: nat, resource: string)
    requires j <= |Calls(world, k)| && resource != ""
    ensures Count(Log(setup, world, k, j), resource) == UsesUntil(setup, world, k, j, resource)
    decreases k, j
  {
    if j > 0 {
      LogCountsUses(setup, world, k, j - 1, resource);
      var log, recorded := Log(setup, world, k, j - 1), Recorded(setup, world, k, j - 1);
      if recorded != [] { CountSnoc(log, recorded[0]); } else { assert log + recorded == log; }
    } else if k > 0 {
      LogCountsUses(setup, world, k - 1, |Calls(world, k - 1)|, resource);
    }
  }

  /**
   An output carries guidance exactly if detection is on and the call's resource has by then been used as often as
   the threshold says, and the guidance names the tool, the resource and how often that was.
   */
  lemma GuidanceMeans(setup: Setup, world: World, k: nat, j: nat)
    requires j < |Calls(world, k)| && ResultBlock(setup, world, k, j).content.Output?
    ensures var call := Calls(world, k)[j];
            var resource := Resource(call.name, call.input);
            var times := UsesUntil(setup, world, k, j + 1, resource);
            ResultBlock(setup, world, k, j).content.guidance
            == if setup.detect && resource != "" && times >= setup.threshold then Reconsider(call.name, resource, times)
               else NoGuidance
  {
    var call := Calls(world, k)[j];
    if Resource(call.name, call.input) != "" {
      LogCountsUses(setup, world, k, j + 1, Resource(call.name, call.input));
    }
  }

  /** So no resource is used more often without guidance than the threshold allows. */
  lemma RepeatedUseIsTold(setup: Setup, world: World, k: nat, j: nat)
    requires j < |Calls(world, k)| && setup.detect
    requires var call := Calls(world, k)[j];
             var resource := Resource(call.name, call.input);
             resource != "" && Uses(setup, world, k, j, resource)
             && UsesUntil(setup, world, k, j, resource) >= setup.threshold - 1
    ensures ResultBlock(setup, world, k, j).content.Output?
    ensures ResultBlock(setup, world, k, j).content.guidance.Reconsider?
  {
    GuidanceMeans(setup, world, k, j);
  }

  /** API calls share a resource if they call the same operation, other calls if they call the same tool. */
  lemma ResourcesTellApart(a: ToolCall, b: ToolCall)
    requires a.name == "execute_api" <==> b.name == "execute_api"
    ensures Resource(a.name, a.input) == Resource(b.name, b.input)
            <==> if a.name != "execute_api" then a.name == b.name
                 else (if "operation" in a.input then a.input["operation"] else "")
                      == (if "operation" in b.input then b.input["operation"] else "")
  {
  }
}
