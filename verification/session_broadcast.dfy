/**
 * `sendMessageToAllActiveSessions`: the media server's sessions are filtered
 * (a session id is required, and the notifier's own devices are skipped), and
 * each remaining session is sent the same message, in list order. The number
 * of messages sent is returned. A failing send is not caught, so the whole call
 * fails. The session API is a channel that logs every send it is asked for and
 * rejects the sessions the caller names.
 */
module SessionBroadcast {
  import opened Wrappers
  import opened JsStrings

  /** A session as the server lists it; the JSON fields may be missing. */
  datatype Session = Session(id: Option<string>, userName: Option<string>, deviceName: Option<string>)

  /** One `sendSessionMessage` call. */
  datatype Delivery = Delivery(sessionId: string, text: string)

  /** Device names of the notifier's own clients, which are never messaged. */
  const ExcludedDevices: set<string> := {"SendMessageToAllActiveSessions", "Jellyfin-Wrapped", "Jellyseerr"}

  /**
   * The filter of `sendMessageToAllActiveSessions`: a truthy `Id` (present and
   * non-empty) and a `DeviceName` that is none of the excluded ones (a missing
   * device name passes).
   */
  predicate Eligible(s: Session) {
    && s.id.Some? && s.id.value != ""
    && !(s.deviceName.Some? && s.deviceName.value in ExcludedDevices)
  }

  /** `session.Id!`. */
  function IdOf(s: Session): string {
    if s.id.Some? then s.id.value else ""
  }

  /** The sends the loop makes when none fails: one per eligible session, in order. */
  function Plan(sessions: seq<Session>, message: string): seq<Delivery>
  {
    var eligible := Filter(Eligible, sessions);
    seq(|eligible|, i requires 0 <= i < |eligible| => Delivery(IdOf(eligible[i]), message))
  }

  /**
   * Exactly the eligible sessions are messaged. Each one is messaged as often as
   * it is listed, with the caller's text and its own non-empty id, and in list
   * order.
   */
  lemma PlanSpec(sessions: seq<Session>, message: string)
    ensures |Plan(sessions, message)| == |Filter(Eligible, sessions)| <= |sessions|
    ensures IsSubsequence(Filter(Eligible, sessions), sessions)
    ensures forall d :: d in Plan(sessions, message) <==>
              exists s :: s in sessions && Eligible(s) && d == Delivery(s.id.value, message)
    ensures forall d :: d in Plan(sessions, message) ==> d.text == message && d.sessionId != ""
  {
    var eligible := Filter(Eligible, sessions);
    var plan := Plan(sessions, message);
    FilterKeeps(Eligible, sessions);
    forall d | d in plan
      ensures exists s :: s in sessions && Eligible(s) && d == Delivery(s.id.value, message)
    {
      var i :| 0 <= i < |plan| && plan[i] == d;
      assert eligible[i] in eligible;
    }
    forall s | s in sessions && Eligible(s)
      ensures Delivery(s.id.value, message) in plan
    {
      var i :| 0 <= i < |eligible| && eligible[i] == s;
      assert plan[i] == Delivery(s.id.value, message);
    }
  }

  /** A session without an id is never messaged, whatever its device. */
  lemma NoIdNoMessage(sessions: seq<Session>, message: string, s: Session)
    requires s in sessions && s.id.None?
    ensures s !in Filter(Eligible, sessions)
    ensures forall d :: d in Plan(sessions, message) ==> d.sessionId != IdOf(s)
  {
    PlanSpec(sessions, message);
    FilterKeeps(Eligible, sessions);
  }

  /** The index of the first planned send that is rejected, or the plan's length. */
  function FirstRejected(failing: set<string>, plan: seq<Delivery>): (k: nat)
    ensures k <= |plan|
  {
    if plan == [] then 0
    else if plan[0].sessionId in failing then 0
    else 1 + FirstRejected(failing, plan[1..])
  }

  /** The sends before `FirstRejected` all succeed, and the one at it fails. */
  lemma {:induction false} FirstRejectedSpec(failing: set<string>, plan: seq<Delivery>)
    ensures forall j :: 0 <= j < FirstRejected(failing, plan) ==> plan[j].sessionId !in failing
    ensures FirstRejected(failing, plan) < |plan| ==> plan[FirstRejected(failing, plan)].sessionId in failing
  {
    if plan != [] && plan[0].sessionId !in failing {
      FirstRejectedSpec(failing, plan[1..]);
    }
  }

  /** The session API: it records every send and rejects the sessions in `failing`. */
  class SessionChannel {
    const failing: set<string>
    var sent: seq<Delivery>

    constructor (failing: set<string>)
      ensures this.failing == failing && sent == []
    {
      this.failing := failing;
      sent := [];
    }

    /** `sendSessionMessage(sessionApi, id, text)`: false when the call rejects. */
    method Send(id: string, text: string) returns (ok: bool)
      modifies this
      ensures ok == (id !in failing)
      ensures sent == old(sent) + [Delivery(id, text)]
    {
      ok := id !in failing;
      sent := sent + [Delivery(id, text)];
    }
  }

  /**
   * `sendMessageToAllActiveSessions(message)`: the planned sends are made in
   * order, up to and including the first one the API rejects. Without a
   * rejection the result is the number of eligible sessions. A rejection ends
   * the call with that session's id as the error.
   */
  method SendMessageToAll(channel: SessionChannel, sessions: seq<Session>, message: string)
    returns (r: Result<nat, string>)
    modifies channel
    ensures var plan := Plan(sessions, message);
            var k := FirstRejected(channel.failing, plan);
            && channel.sent == old(channel.sent) + plan[..if k < |plan| then k + 1 else k]
            && r == if k < |plan| then Failure(plan[k].sessionId) else Success(|plan|)
  {
    var eligible := Filter(Eligible, sessions);
    ghost var plan := Plan(sessions, message);
    ghost var k := FirstRejected(channel.failing, plan);
    FirstRejectedSpec(channel.failing, plan);
    var messagesSent := 0;
    for i := 0 to |eligible|
      invariant messagesSent == i <= k
      invariant channel.sent == old(channel.sent) + plan[..i]
    {
      assert plan[i] == Delivery(IdOf(eligible[i]), message);
      var ok := channel.Send(IdOf(eligible[i]), message);
      assert plan[..i + 1] == plan[..i] + [plan[i]];
      if !ok {
        return Failure(IdOf(eligible[i]));
      }
      messagesSent := messagesSent + 1;
    }
    assert plan[..|plan|] == plan;
    r := Success(messagesSent);
  }

  /** With no rejection, each eligible session is messaged once and the count is the eligible total. */
  lemma AllDelivered(failing: set<string>, sessions: seq<Session>, message: string)
    requires forall s :: s in sessions ==> IdOf(s) !in failing
    ensures FirstRejected(failing, Plan(sessions, message)) == |Filter(Eligible, sessions)|
  {
    var plan := Plan(sessions, message);
    FirstRejectedSpec(failing, plan);
    FilterKeeps(Eligible, sessions);
  }

  /**
   * The three broadcast cases of the unit tests: of six sessions, the three on
   * the notifier's own devices are skipped; an empty list sends nothing; a
   * session without an id is skipped.
   */
  lemma TestCases()
    ensures Plan([Session(Some("1"), Some("User1"), Some("Device1")),
                  Session(Some("2"), Some("User2"), Some("Device2")),
                  Session(Some("3"), Some("User3"), Some("SendMessageToAllActiveSessions")),
                  Session(Some("4"), Some("User4"), Some("Jellyfin-Wrapped")),
                  Session(Some("5"), Some("User5"), Some("Jellyseerr")),
                  Session(Some("6"), Some("User6"), Some("Device6"))], "Test message")
            == [Delivery("1", "Test message"), Delivery("2", "Test message"), Delivery("6", "Test message")]
    ensures Plan([], "Test message") == []
    ensures Plan([Session(None, Some("User1"), Some("Device1")),
                  Session(Some("2"), Some("User2"), Some("Device2"))], "Test message")
            == [Delivery("2", "Test message")]
  {
    var s1 := Session(Some("1"), Some("User1"), Some("Device1"));
    var s2 := Session(Some("2"), Some("User2"), Some("Device2"));
    var s3 := Session(Some("3"), Some("User3"), Some("SendMessageToAllActiveSessions"));
    var s4 := Session(Some("4"), Some("User4"), Some("Jellyfin-Wrapped"));
    var s5 := Session(Some("5"), Some("User5"), Some("Jellyseerr"));
    var s6 := Session(Some("6"), Some("User6"), Some("Device6"));
    var six := [s1, s2, s3, s4, s5, s6];
    assert !Eligible(s3) && !Eligible(s4) && !Eligible(s5);
    assert Eligible(s1) && Eligible(s2) && Eligible(s6);
    assert [s6][1..] == [];
    assert Filter(Eligible, [s6]) == [s6];
    assert [s5, s6][1..] == [s6];
    assert Filter(Eligible, [s5, s6]) == [s6];
    assert [s4, s5, s6][1..] == [s5, s6];
    assert Filter(Eligible, [s4, s5, s6]) == [s6];
    assert [s3, s4, s5, s6][1..] == [s4, s5, s6];
    assert Filter(Eligible, [s3, s4, s5, s6]) == [s6];
    assert [s2, s3, s4, s5, s6][1..] == [s3, s4, s5, s6];
    assert Filter(Eligible, [s2, s3, s4, s5, s6]) == [s2, s6];
    assert six[1..] == [s2, s3, s4, s5, s6];
    assert Filter(Eligible, six) == [s1, s2, s6];
    var s0 := Session(None, Some("User1"), Some("Device1"));
    assert [s0, s2][1..] == [s2];
    assert Filter(Eligible, [s0, s2]) == [s2];
  }
}
