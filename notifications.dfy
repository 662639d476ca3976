/**
 * The SignalR hub context the controllers broadcast through, reduced to an
 * outbox: every group send appends one (group, event, payload) entry.
 * Payloads are the serialised JSON text of a record and are opaque here.
 */
module Notifications {
  import opened Strings

  datatype Broadcast = Broadcast(group: string, event: string, payload: string)

  /** The event name a successful create is announced with. */
  const NewDataEvent: string := "NewDataAvailable"

  /** The prefix every client id (PC name) allowed to subscribe carries. */
  const ClientPrefix: string := "IE50"

  /** The group a record of the given type identifier is announced to: "G-" followed by the identifier's text. */
  function GroupOf(typeIdText: string): (g: string)
    ensures |g| == |typeIdText| + 2 && g[..2] == "G-" && g[2..] == typeIdText
  {
    "G-" + typeIdText
  }

  /** Two type identifiers are announced to the same group exactly when they are equal. */
  lemma SameGroupIffSameType(a: string, b: string)
    ensures GroupOf(a) == GroupOf(b) <==> a == b
  {
  }

  /** A numeric type identifier is formatted in decimal; still one group per number. */
  lemma SameGroupIffSameNumericType(a: int, b: int)
    ensures GroupOf(IntToString(a)) == GroupOf(IntToString(b)) <==> a == b
  {
    SameGroupIffSameType(IntToString(a), IntToString(b));
    if IntToString(a) == IntToString(b) {
      IntToStringInjective(a, b);
    }
  }

  class HubContext {
    /** Every broadcast sent so far, oldest first. */
    var sent: seq<Broadcast>

    constructor ()
      ensures sent == []
    {
      sent := [];
    }

    /** Clients.Group(group).SendAsync(event, payload). */
    method SendToGroup(group: string, event: string, payload: string)
      modifies this
      ensures sent == old(sent) + [Broadcast(group, event, payload)]
    {
      sent := sent + [Broadcast(group, event, payload)];
    }
  }
}
