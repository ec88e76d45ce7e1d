/**
 The agent field of a WebSocket URI: reading it, rewriting it on an agent transfer, and
 reading the call id on a human transfer.  The production form is
 `<pre>agent=<agentId>_<callId>_...`.  Library positions are 64-bit and "not found" is the
 largest one, so adding to it wraps around.
 */
module AgentUri {
  import opened Common
  import opened Strings

  const NPOS: nat := 0xFFFF_FFFF_FFFF_FFFF
  const KEY := "agent="

  function Position(found: Option<nat>): nat {
    if found.Some? then found.value else NPOS
  }

  function Wrap(position: nat): nat {
    position % (NPOS + 1)
  }

  /** `substr(start)`; `None` is the library's out-of-range exception. */
  function SubstrFrom(s: string, start: nat): Option<string> {
    if start > |s| then None else Some(s[start..])
  }

  function Prefix(s: string, length: nat): string {
    if length < |s| then s[..length] else s
  }

  /** The agent id `setAgentId` stores; `current` stays when the delimiter is missing. */
  function AgentOf(uri: string, current: string): string {
    var key := Find(uri, KEY);
    if uri == "" || key.None? then "" else
      var value := uri[key.value + 6..];
      var underscore := Find(value, "_");
      if underscore.None? then current else value[..underscore.value]
  }

  /** The URI an agent transfer connects to. */
  function Rewrite(uri: string, current: string, agent: string): Option<string> {
    var callPart := SubstrFrom(uri, Wrap(Position(Find(uri, current)) + |current| + 1));
    if callPart.None? then None else
      var base := Prefix(uri, Wrap(Position(Find(uri, KEY)) + 6));
      Some(base + agent + "_" + callPart.value)
  }

  /** The call id of a human transfer: the part between the first two underscores after the key. */
  function CallId(uri: string): Option<string> {
    var key := Find(uri, KEY);
    if key.None? then None else
      var value := uri[key.value + 6..];
      var underscore := Find(value, "_");
      if underscore.None? then None else
        var remaining := value[underscore.value + 1..];
        Some(Prefix(remaining, Position(Find(remaining, "_"))))
  }

  class Session {
    var wsUri: string
    var currentAgentId: string
    var realTimeAudio: bool

    constructor (uri: string)
      ensures wsUri == uri && currentAgentId == AgentOf(uri, "")
      ensures realTimeAudio <==> Find(uri, "rupture").Some?
    {
      wsUri, currentAgentId := uri, "";
      realTimeAudio := Find(uri, "rupture").Some?;
      new;
      SetAgentId();
    }

    method SetAgentId()
      modifies this`currentAgentId
      ensures currentAgentId == AgentOf(wsUri, old(currentAgentId))
    {
      if wsUri == "" {
        currentAgentId := "";
        return;
      }
      var agentPos := Find(wsUri, KEY);
      if agentPos.None? {
        currentAgentId := "";
        return;
      }
      var agentValue := wsUri[agentPos.value + 6..];
      var underscorePos := Find(agentValue, "_");
      if underscorePos.None? {
        return;
      }
      currentAgentId := agentValue[..underscorePos.value];
    }

    /** `ok` is false when the rewriting throws; nothing has changed then. */
    method PerformAgentTransfer(newAgentId: string) returns (ok: bool)
      modifies this
      ensures ok <==> Rewrite(old(wsUri), old(currentAgentId), newAgentId).Some?
      ensures ok ==> Some(wsUri) == Rewrite(old(wsUri), old(currentAgentId), newAgentId)
      ensures ok ==> currentAgentId == newAgentId
      ensures ok ==> (realTimeAudio <==> old(realTimeAudio) || Find(wsUri, "rupture").Some?)
      ensures !ok ==> unchanged(this)
    {
      ghost var rewritten := Rewrite(wsUri, currentAgentId, newAgentId);
      var start := Wrap(Position(Find(wsUri, currentAgentId)) + |currentAgentId| + 1);
      if start > |wsUri| {
        return false;
      }
      var callIdPart := wsUri[start..];
      var baseUrl := Prefix(wsUri, Wrap(Position(Find(wsUri, KEY)) + 6));
      wsUri := baseUrl + newAgentId + "_" + callIdPart;
      assert rewritten == Some(wsUri);
      if Find(wsUri, "rupture").Some? {
        realTimeAudio := true;
      }
      currentAgentId := newAgentId;
      return true;
    }
  }

  // ---- the agent field ----

  /** A URI whose first key is the one before the agent id. */
  predicate Carries(uri: string, pre: string, agent: string, rest: string) {
    && uri == pre + KEY + agent + "_" + rest
    && |uri| < NPOS
    && '_' !in agent
    && Find(uri, KEY) == Some(|pre|)
  }

  /** Where the first key is does not depend on what follows it. */
  lemma KeyStays(pre: string, x: string, y: string)
    requires Find(pre + KEY + x, KEY) == Some(|pre|)
    ensures Find(pre + KEY + y, KEY) == Some(|pre|)
  {
    var s, t := pre + KEY + x, pre + KEY + y;
    assert t[|pre|..|pre| + 6] == KEY;
    forall j: nat | j < |pre|
      ensures !At(t, KEY, j)
    {
      assert s[j..j + 6] == (pre + KEY)[j..j + 6] == t[j..j + 6];
      assert !At(s, KEY, j);
    }
    FirstIs(t, KEY, |pre|);
  }

  lemma UnderscoreAfter(agent: string, rest: string)
    requires '_' !in agent
    ensures Find(agent + "_" + rest, "_") == Some(|agent|)
  {
    var s := agent + "_" + rest;
    assert s[|agent|..|agent| + 1] == "_";
    forall j: nat | j < |agent|
      ensures !At(s, "_", j)
    {
      assert s[j..j + 1][0] == agent[j];
    }
    FirstIs(s, "_", |agent|);
  }

  lemma Split(uri: string, pre: string, agent: string, rest: string)
    requires uri == pre + KEY + agent + "_" + rest
    ensures uri == pre + KEY + (agent + "_" + rest)
    ensures uri[|pre| + 6..] == agent + "_" + rest
    ensures uri[..|pre| + 6] == pre + KEY
    ensures uri[|pre| + 6 + |agent| + 1..] == rest
    ensures At(uri, agent, |pre| + 6)
  {
    assert uri == (pre + KEY) + (agent + "_" + rest);
    assert uri == (pre + KEY + agent + "_") + rest;
  }

  lemma ReadsAgent(uri: string, pre: string, agent: string, rest: string, current: string)
    requires Carries(uri, pre, agent, rest)
    ensures AgentOf(uri, current) == agent
  {
    Split(uri, pre, agent, rest);
    UnderscoreAfter(agent, rest);
  }

  /** Without a URI or a key there is no agent; without a delimiter behind the key it stays as it was. */
  lemma ReadsNoAgent(uri: string, current: string)
    ensures (forall i: nat :: !At(uri, "agent=", i)) ==> AgentOf(uri, current) == ""
    ensures (exists i: nat :: At(uri, "agent=", i) && (forall j: nat :: j < i ==> !At(uri, "agent=", j))
                              && '_' !in uri[i + 6..]) ==> AgentOf(uri, current) == current
  {
    if i: nat :| At(uri, "agent=", i) && (forall j: nat :: j < i ==> !At(uri, "agent=", j)) && '_' !in uri[i + 6..] {
      FirstIs(uri, "agent=", i);
      NoUnderscore(uri[i + 6..]);
    }
  }

  lemma NoUnderscore(value: string)
    requires '_' !in value
    ensures Find(value, "_") == None
  {
    forall j: nat
      ensures !At(value, "_", j)
    {
      if j < |value| {
        assert value[j..j + 1][0] == value[j] && value[j] in value;
      }
    }
  }

  lemma ReadsCallId(uri: string, pre: string, agent: string, rest: string)
    requires Carries(uri, pre, agent, rest)
    ensures CallId(uri) == Some(Prefix(rest, Position(Find(rest, "_"))))
  {
    Split(uri, pre, agent, rest);
    UnderscoreAfter(agent, rest);
    assert (agent + "_" + rest)[|agent| + 1..] == rest;
  }

  /**
   A transfer replaces the agent field and nothing else exactly when the current id does not
   occur earlier in the URI than in its own field.
   */
  lemma TransferExact(uri: string, pre: string, a: string, rest: string, b: string)
    requires Carries(uri, pre, a, rest)
    ensures Rewrite(uri, a, b) == Some(pre + KEY + b + "_" + rest) <==> Find(uri, a) == Some(|pre| + 6)
  {
    Split(uri, pre, a, rest);
    var p := Find(uri, a).value;
    assert p <= |pre| + 6;
    RewriteAt(uri, pre, a, rest, b, p);
    var head, tail := pre + KEY + b + "_", uri[p + |a| + 1..];
    assert |head + tail| == |head| + |tail| && |head + rest| == |head| + |rest|;
  }

  /** What the transfer builds when the current id is first found at `p`. */
  lemma RewriteAt(uri: string, pre: string, a: string, rest: string, b: string, p: nat)
    requires Carries(uri, pre, a, rest) && Find(uri, a) == Some(p) && p <= |pre| + 6
    ensures Rewrite(uri, a, b) == Some((pre + KEY + b + "_") + uri[p + |a| + 1..])
  {
    Split(uri, pre, a, rest);
    WrapSmall(p + |a| + 1);
    WrapSmall(|pre| + 6);
    RewriteUnwrapped(uri, a, b, p, |pre|);
    assert Prefix(uri, |pre| + 6) == pre + KEY;
  }

  /** Away from the ends of the range the positions are what they say. */
  lemma RewriteUnwrapped(uri: string, a: string, b: string, p: nat, key: nat)
    requires Find(uri, a) == Some(p) && Find(uri, KEY) == Some(key)
    requires Wrap(p + |a| + 1) == p + |a| + 1 <= |uri| && Wrap(key + 6) == key + 6
    ensures Rewrite(uri, a, b) == Some(Prefix(uri, key + 6) + b + "_" + uri[p + |a| + 1..])
  {
  }

  lemma WrapSmall(position: nat)
    requires position <= NPOS
    ensures Wrap(position) == position
  {
  }

  /** Such a transfer yields a URI of the same form, read back as the new agent and the same call. */
  lemma TransferKeepsForm(uri: string, pre: string, a: string, rest: string, b: string)
    requires Carries(uri, pre, a, rest) && Find(uri, a) == Some(|pre| + 6)
    requires '_' !in b && |uri| + |b| < NPOS
    ensures var moved := Rewrite(uri, a, b);
      && moved.Some? && Carries(moved.value, pre, b, rest)
      && AgentOf(moved.value, a) == b
      && CallId(moved.value) == CallId(uri)
  {
    TransferExact(uri, pre, a, rest, b);
    var moved := pre + KEY + b + "_" + rest;
    Split(uri, pre, a, rest);
    Split(moved, pre, b, rest);
    KeyStays(pre, a + "_" + rest, b + "_" + rest);
    ReadsAgent(moved, pre, b, rest, a);
    ReadsCallId(moved, pre, b, rest);
    ReadsCallId(uri, pre, a, rest);
  }

  /** Transferring on and back restores the URI exactly when the new id, too, first occurs in its field. */
  lemma TransferBack(uri: string, pre: string, a: string, rest: string, b: string)
    requires Carries(uri, pre, a, rest) && Find(uri, a) == Some(|pre| + 6)
    requires '_' !in b && |uri| + |b| < NPOS
    ensures Rewrite(uri, a, b).Some?
    ensures var moved := Rewrite(uri, a, b).value;
      Rewrite(moved, b, a) == Some(uri) <==> Find(moved, b) == Some(|pre| + 6)
  {
    TransferKeepsForm(uri, pre, a, rest, b);
    TransferExact(Rewrite(uri, a, b).value, pre, b, rest, a);
  }

  const CLASHING_URI := "ws?agent=ws_7"

  lemma ClashingUriCarries()
    ensures Carries(CLASHING_URI, "ws?", "ws", "7")
  {
    var uri := CLASHING_URI;
    assert uri == "ws?" + KEY + "ws" + "_" + "7";
    assert uri[3..9] == KEY;
    forall j: nat | j < 3
      ensures !At(uri, KEY, j)
    {
      assert uri[j..j + 6][0] == uri[j] && uri[j] != 'a';
    }
    FirstIs(uri, KEY, 3);
  }

  /** An id that is also the scheme is cut out of the wrong place: more than the agent field changes. */
  lemma TransferCutsTooEarly(b: string)
    ensures Carries(CLASHING_URI, "ws?", "ws", "7")
    ensures Rewrite(CLASHING_URI, "ws", b) != Some("ws?" + KEY + b + "_" + "7")
  {
    ClashingUriCarries();
    assert CLASHING_URI[0..2] == "ws";
    FirstIs(CLASHING_URI, "ws", 0);
    TransferExact(CLASHING_URI, "ws?", "ws", "7", b);
  }
}
