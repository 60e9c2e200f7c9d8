/** Failover routing (src/outbox/routing.py). */
module Routing {
  import opened Basics

  const KNOWN_CHANNELS := ["slack", "pagerduty", "email"]
  const FAILOVER_MIN_PRIORITY := 1
  const DEFAULT_PRIORITY := 2

  datatype Action = Create | Update | Resolve

  datatype Target = Target(channel: string, action: Action)

  function FailoverChain(origin: string): seq<string> {
    if origin == "slack" then ["pagerduty", "email"]
    else if origin == "pagerduty" then ["slack", "email"]
    else []
  }

  predicate IsFailoverWorthy(priority: int) { priority <= FAILOVER_MIN_PRIORITY }

  function TranslateAction(channel: string, action: Action): Action {
    if channel == "pagerduty" && action.Update? then Create else action
  }

  /** The first candidate of the chain that is healthy. */
  function FirstHealthy(chain: seq<string>, action: Action, available: set<string>): (t: Option<Target>)
    ensures t.None? <==> forall c :: c in chain ==> c !in available
    ensures t.Some? ==> t.value.channel in chain && t.value.channel in available
                        && t.value.action == TranslateAction(t.value.channel, action)
    ensures t.Some? ==> exists k :: 0 <= k < |chain| && chain[k] == t.value.channel
                                    && forall j :: 0 <= j < k ==> chain[j] !in available
  {
    if chain == [] then None
    else if chain[0] in available then Some(Target(chain[0], TranslateAction(chain[0], action)))
    else
      var t := FirstHealthy(chain[1..], action, available);
      assert chain == [chain[0]] + chain[1..];
      assert t.Some? ==> exists k :: 0 <= k < |chain| && chain[k] == t.value.channel
                                     && forall j :: 0 <= j < k ==> chain[j] !in available by {
        if t.Some? {
          var k :| 0 <= k < |chain[1..]| && chain[1..][k] == t.value.channel
                   && forall j :: 0 <= j < k ==> chain[1..][j] !in available;
          assert chain[k + 1] == t.value.channel;
          assert forall j :: 0 <= j < k + 1 ==> j == 0 || chain[j] == chain[1..][j - 1];
        }
      }
      t
  }

  function SelectFailover(origin: string, action: Action, available: set<string>): (t: Option<Target>)
    ensures t.Some? ==> t.value.channel in available && t.value.channel != origin
    ensures t.Some? <==> exists c :: c in FailoverChain(origin) && c in available
  {
    FirstHealthy(FailoverChain(origin), action, available)
  }
}
