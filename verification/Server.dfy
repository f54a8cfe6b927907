/** The handoff and logout routes of the daemon (internal/server/server.go), on a session nobody else
    is using. */
module Server {
  import opened Basics
  import opened SessionSpec
  import opened LiveSession
  import opened Takeover

  /** handleHandoff behind the secret test: drain, deliver, then roll back or shut down. encodes and
      written say whether the JSON encoding and the response write succeed. */
  method HandleHandoff(s: SessionObject, t: nat, encodes: bool, written: bool)
    returns (reply: HandoffReply, shutdown: bool)
    requires s.opMu.None?
    modifies s
    ensures s.opMu == None
    // not ready: a conflict naming the state, and nothing changes
    ensures !old(s.state).Ready? ==>
              reply == HandoffResponse(old(s.Fields())) && s.Fields() == old(s.Fields()) && !shutdown
    // delivered: the response has the credentials, and they are gone here
    ensures old(s.state).Ready? && encodes && written ==>
              reply == HandoffResponse(old(s.Fields())) && s.Fields() == DRAINED && shutdown
    // not delivered: every credential is back
    ensures old(s.state).Ready? && !(encodes && written) ==>
              s.Fields() == Session(old(s.Fields()).creds, State.Ready, "") && !shutdown
    ensures old(s.state).Ready? && !encodes ==> reply.status == 500 && reply.body == None
  {
    var d, found := s.Handoff(t);
    if d.None? {
      return HandoffReply(409, None, StateName(found)), false;
    }
    if !encodes {
      s.RestoreHandoff(d);
      return HandoffReply(500, None, ""), false;
    }
    reply := HandoffReply(200, Some(BodyOf(d.value)), "");
    if !written {
      s.RestoreHandoff(d);
      return reply, false;
    }
    shutdown := true;
  }

  method HandleLogout(s: SessionObject) returns (shutdown: bool)
    modifies s
    ensures s.Fields() == CLEARED && shutdown
    ensures s.opMu == old(s.opMu) && s.m == old(s.m) && s.calls == old(s.calls)
  {
    s.Clear();
    shutdown := true;
  }
}
