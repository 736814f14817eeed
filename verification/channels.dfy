/** The broadcast channels of a run: its own private channel, then one channel per
    configured route, with `{user}` in a route filled by the user's key. */
module Channels {
  import opened Results
  import opened Values
  import opened PhpStrings
  import opened Chains

  /** A broadcast channel: private (authorised) or public, with its name. */
  datatype Channel = PrivateChannel(name: string) | PublicChannel(name: string)

  /** The placeholder a route may contain. */
  const UserPlaceholder: string := "{user}"

  /** `getChannelRoute`: every `{user}` in the route becomes the user's key, or the
      empty string when there is no user. */
  function ChannelRoute(c: Chain, route: string): string {
    ReplaceAll(route, UserPlaceholder, c.user.GetOr(""))
  }

  /** The run's own channel name. */
  function RunChannel(c: Chain): string {
    "job-chain." + c.name + "." + c.runId
  }

  /** `broadcastOn`: the run's private channel first, then the configured routes in
      order; a route is private unless its visibility is given and is not exactly
      `private`; a missing route is the empty string. */
  function BroadcastOn(c: Chain): (r: seq<Channel>)
    ensures |r| == |c.channels| + 1
    ensures r[0] == PrivateChannel(RunChannel(c))
    ensures forall i :: 0 <= i < |c.channels| ==>
      && (r[i + 1].PrivateChannel? <==> c.channels[i].visibility.GetOr("private") == "private")
      && r[i + 1].name == ChannelRoute(c, c.channels[i].route.GetOr(""))
  {
    [PrivateChannel(RunChannel(c))] + seq(|c.channels|, i requires 0 <= i < |c.channels| =>
      var cfg := c.channels[i];
      var route := ChannelRoute(c, cfg.route.GetOr(""));
      if cfg.visibility.GetOr("private") == "private" then PrivateChannel(route) else PublicChannel(route))
  }

  /** Skipping a prefix that cannot start an occurrence leaves it untouched. */
  lemma {:induction false} ReplaceAllSkip(p: string, t: string, search: string, rep: string)
    requires |search| > 0 && search[0] !in p
    ensures ReplaceAll(p + t, search, rep) == p + ReplaceAll(t, search, rep)
    decreases |p|
  {
    if |p| > 0 {
      var s := p + t;
      assert s[0] == p[0] && p[0] in p;
      if |s| >= |search| {
        assert s[..|search|][0] == p[0];
      }
      assert s[1..] == p[1..] + t;
      assert search[0] !in p[1..] by {
        assert forall x :: x in p[1..] ==> x in p;
      }
      ReplaceAllSkip(p[1..], t, search, rep);
      assert [p[0]] + p[1..] == p;
    } else {
      assert p + t == t;
    }
  }

  /** A `{user}` after a part that contains no `{` is replaced by the user's key, or
      by nothing when there is no user, and the rest of the route is filled in turn. */
  lemma ChannelRouteStep(c: Chain, p: string, q: string)
    requires '{' !in p
    ensures ChannelRoute(c, p + UserPlaceholder + q) == p + c.user.GetOr("") + ChannelRoute(c, q)
  {
    var key := c.user.GetOr("");
    var t := UserPlaceholder + q;
    ReplaceAllSkip(p, t, UserPlaceholder, key);
    assert t[..|UserPlaceholder|] == UserPlaceholder;
    assert t[|UserPlaceholder|..] == q;
    assert p + UserPlaceholder + q == p + t;
  }

  /** A route made of brace-free parts separated by any number of `{user}`
      placeholders becomes the same parts separated by the user's key. */
  lemma {:induction false} ChannelRouteFillsAll(c: Chain, parts: seq<string>)
    requires forall i :: 0 <= i < |parts| ==> '{' !in parts[i]
    ensures ChannelRoute(c, Implode(UserPlaceholder, parts)) == Implode(c.user.GetOr(""), parts)
    decreases |parts|
  {
    var key := c.user.GetOr("");
    if |parts| == 0 {
    } else if |parts| == 1 {
      ReplaceAllSkip(parts[0], "", UserPlaceholder, key);
      assert parts[0] + "" == parts[0];
    } else {
      ChannelRouteFillsAll(c, parts[1..]);
      ChannelRouteStep(c, parts[0], Implode(UserPlaceholder, parts[1..]));
    }
  }

  /** A route without the placeholder is used as it is. */
  lemma ChannelRouteVerbatim(c: Chain, route: string)
    requires forall i :: 0 <= i <= |route| ==> !OccursAt(route, UserPlaceholder, i)
    ensures ChannelRoute(c, route) == route
  {
    ReplaceAllAbsent(route, UserPlaceholder, c.user.GetOr(""));
  }

  /** Two runs of the same chain broadcast on different private channels. */
  lemma RunChannelsDistinct(c: Chain, runId1: string, runId2: string)
    requires runId1 != runId2
    ensures BroadcastOn(c.(runId := runId1))[0] != BroadcastOn(c.(runId := runId2))[0]
  {
    PrefixInjective("job-chain." + c.name + ".", runId1, runId2);
  }

  /** With a truthy name and run id, the run's channel name is the prefix of every
      cache key of the run. */
  lemma RunChannelIsKeyPrefix(c: Chain)
    requires StrTruthy(c.name) && StrTruthy(c.runId)
    ensures RunChannel(c) == RunPrefix(c)
  {
    var parts := ["job-chain", c.name, c.runId];
    assert parts[1..] == [c.name, c.runId];
    KeepTruthyPair(c.name, c.runId);
    assert KeepTruthy(parts) == ["job-chain", c.name, c.runId];
    ImplodeCons(".", "job-chain", [c.name, c.runId]);
    ImplodeCons(".", c.name, [c.runId]);
  }
}
