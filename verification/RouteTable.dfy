/** The REST routes a phone may reach, and how a path is matched against them:
    `allowedRoutes` and `routeAllowed` of `internal/bridge/routes.go`. */
module RouteTable {
  import opened Routes

  datatype Method = Get | Put | Post | Patch | Delete | Other(name: string)

  datatype Route = Route(verb: Method, prefix: string)

  const STATUS: seq<Route> := [
    Route(Get, "/api/status"),
    Route(Post, "/api/gateway/restart"),
    Route(Get, "/api/hermes/update/check"),
    Route(Post, "/api/hermes/update"),
    Route(Get, "/api/logs")]

  const SESSIONS: seq<Route> := [
    Route(Get, "/api/sessions"),
    Route(Get, "/api/sessions/"),
    Route(Get, "/api/sessions/search"),
    Route(Patch, "/api/sessions/"),
    Route(Delete, "/api/sessions/"),
    Route(Get, "/api/media")]

  const CONFIG: seq<Route> := [
    Route(Get, "/api/config"),
    Route(Put, "/api/config"),
    Route(Get, "/api/config/schema"),
    Route(Get, "/api/config/defaults"),
    Route(Get, "/api/env"),
    Route(Put, "/api/env"),
    Route(Delete, "/api/env"),
    Route(Post, "/api/env/reveal")]

  const MODELS: seq<Route> := [
    Route(Get, "/api/model/"),
    Route(Post, "/api/model/set"),
    Route(Put, "/api/model/auxiliary"),
    Route(Put, "/api/model/moa"),
    Route(Get, "/api/providers/"),
    Route(Post, "/api/providers/"),
    Route(Put, "/api/providers/"),
    Route(Delete, "/api/providers/"),
    Route(Get, "/api/local-models/"),
    Route(Post, "/api/local-models/"),
    Route(Delete, "/api/local-models/")]

  const PROFILES: seq<Route> := [
    Route(Get, "/api/profiles"),
    Route(Post, "/api/profiles"),
    Route(Put, "/api/profiles/"),
    Route(Delete, "/api/profiles/")]

  const CAPABILITIES: seq<Route> := [
    Route(Get, "/api/skills"),
    Route(Post, "/api/skills"),
    Route(Post, "/api/skills/"),
    Route(Get, "/api/skills/"),
    Route(Put, "/api/skills/"),
    Route(Get, "/api/tools/"),
    Route(Put, "/api/tools/"),
    Route(Post, "/api/tools/"),
    Route(Get, "/api/mcp/"),
    Route(Post, "/api/mcp/"),
    Route(Put, "/api/mcp/"),
    Route(Delete, "/api/mcp/")]

  const WORKSPACE: seq<Route> := [
    Route(Get, "/api/fs/"),
    Route(Post, "/api/fs/"),
    Route(Get, "/api/git/"),
    Route(Post, "/api/git/")]

  const KNOWLEDGE: seq<Route> := [
    Route(Get, "/api/memory"),
    Route(Post, "/api/memory/"),
    Route(Get, "/api/memory/"),
    Route(Put, "/api/memory/providers/"),
    Route(Post, "/api/memory/providers/"),
    Route(Get, "/api/learning/"),
    Route(Post, "/api/learning/"),
    Route(Put, "/api/learning/node"),
    Route(Delete, "/api/learning/node"),
    Route(Get, "/api/curator"),
    Route(Post, "/api/curator/"),
    Route(Put, "/api/curator/")]

  const OPERATIONS: seq<Route> := [
    Route(Post, "/api/ops/"),
    Route(Get, "/api/ops/"),
    Route(Get, "/api/actions/"),
    Route(Get, "/api/analytics/")]

  const MESSAGING: seq<Route> := [
    Route(Get, "/api/messaging/"),
    Route(Put, "/api/messaging/"),
    Route(Post, "/api/messaging/"),
    Route(Delete, "/api/messaging/"),
    Route(Get, "/api/pairing"),
    Route(Post, "/api/pairing/"),
    Route(Get, "/api/webhooks"),
    Route(Post, "/api/webhooks"),
    Route(Post, "/api/webhooks/"),
    Route(Put, "/api/webhooks/"),
    Route(Delete, "/api/webhooks/"),
    Route(Get, "/api/cron/"),
    Route(Post, "/api/cron/")]

  const VOICE: seq<Route> := [
    Route(Get, "/api/audio/"),
    Route(Post, "/api/audio/")]

  const PLUGINS: seq<Route> := [
    Route(Get, "/api/plugins/"),
    Route(Post, "/api/plugins/")]

  /** The app areas that own the groups of routes, in the order of the table. */
  datatype Area =
    | Status | Sessions | Config | Models | Profiles | Capabilities
    | Workspace | Knowledge | Operations | Messaging | Voice | Plugins

  function RoutesOf(area: Area): seq<Route> {
    match area
    case Status => STATUS
    case Sessions => SESSIONS
    case Config => CONFIG
    case Models => MODELS
    case Profiles => PROFILES
    case Capabilities => CAPABILITIES
    case Workspace => WORKSPACE
    case Knowledge => KNOWLEDGE
    case Operations => OPERATIONS
    case Messaging => MESSAGING
    case Voice => VOICE
    case Plugins => PLUGINS
  }

  function TableOf(areas: seq<Area>): seq<Route> {
    if areas == [] then [] else TableOf(areas[..|areas| - 1]) + RoutesOf(areas[|areas| - 1])
  }

  const AREAS: seq<Area> := [
    Status, Sessions, Config, Models, Profiles, Capabilities,
    Workspace, Knowledge, Operations, Messaging, Voice, Plugins]

  function WithoutSlash(prefix: string): string {
    if prefix != "" && prefix[|prefix| - 1] == '/' then prefix[..|prefix| - 1] else prefix
  }

  /** A prefix ending in "/" covers everything below it, and itself without the
      slash; any other covers itself. */
  predicate Covers(r: Route, verb: Method, path: string) {
    && r.verb == verb
    && (path == r.prefix || path == WithoutSlash(r.prefix) || (WithoutSlash(r.prefix) != r.prefix && r.prefix <= path))
  }

  predicate Allowed(routes: seq<Route>, verb: Method, path: string) {
    exists i :: 0 <= i < |routes| && Covers(routes[i], verb, path)
  }

  /** What a route covers: without a final slash its own path, with one that path
      without the slash and everything below it. */
  lemma CoversExactly(verb: Method, prefix: string, asked: Method, path: string)
    requires prefix != "" && prefix[|prefix| - 1] != '/'
    ensures Covers(Route(verb, prefix), asked, path) <==> asked == verb && path == prefix
    ensures Covers(Route(verb, prefix + "/"), asked, path) <==>
              asked == verb && (path == prefix || exists rest :: path == prefix + "/" + rest)
  {
    var dir := prefix + "/";
    assert WithoutSlash(dir) == prefix && |dir| != |prefix|;
    if dir <= path {
      assert path == dir + path[|dir|..];
    }
    assert dir == dir + "";
  }

  method RouteAllowed(routes: seq<Route>, verb: Method, path: string) returns (ok: bool)
    ensures ok <==> Allowed(routes, verb, path)
  {
    for i := 0 to |routes|
      invariant forall k :: 0 <= k < i ==> !Covers(routes[k], verb, path)
    {
      var r := routes[i];
      if r.verb != verb {
        continue;
      }
      if path == r.prefix || path == WithoutSlash(r.prefix) {
        return true;
      }
      if r.prefix != "" && r.prefix[|r.prefix| - 1] == '/' && r.prefix <= path {
        return true;
      }
    }
    return false;
  }

  // ---------- The table sees through escapes ----------

  /** Bytes that an accepted path never escapes. */
  predicate Plain(s: string) { forall i :: 0 <= i < |s| ==> IsUnreserved(s[i]) || s[i] == '/' }

  ghost predicate PlainTable(routes: seq<Route>) { forall i :: 0 <= i < |routes| ==> Plain(routes[i].prefix) }

  lemma {:induction false} PlainPrefixAgrees(raw: string, p: string)
    requires EscapesOk(raw) && Plain(p)
    ensures p <= raw <==> p <= Decoded(raw)
    ensures raw == p <==> Decoded(raw) == p
  {
    if p != "" && raw != "" {
      var tail := raw[Width(raw)..];
      assert Decoded(raw)[1..] == Decoded(tail);
      if raw[0] == '%' {
        assert p[0] != Head(raw);
      } else if raw[0] == p[0] {
        PlainPrefixAgrees(tail, p[1..]);
        assert p == [p[0]] + p[1..] && raw == [raw[0]] + tail;
      }
    }
  }

  lemma CoversAgrees(r: Route, verb: Method, raw: string)
    requires EscapesOk(raw) && Plain(r.prefix)
    ensures Covers(r, verb, raw) <==> Covers(r, verb, Decoded(raw))
  {
    PlainPrefixAgrees(raw, r.prefix);
    PlainPrefixAgrees(raw, WithoutSlash(r.prefix));
  }

  lemma AllowedAgrees(routes: seq<Route>, verb: Method, raw: string)
    requires EscapesOk(raw) && PlainTable(routes)
    ensures Allowed(routes, verb, raw) <==> Allowed(routes, verb, Decoded(raw))
  {
    forall i | 0 <= i < |routes|
      ensures Covers(routes[i], verb, raw) <==> Covers(routes[i], verb, Decoded(raw))
    {
      CoversAgrees(routes[i], verb, raw);
    }
  }

  lemma UpdatePrefixes()
    ensures Plain("/api/hermes/update")
    ensures Plain("/api/logs")
  {}

  lemma StatusIsPlain()
    ensures PlainTable(STATUS)
  {
    UpdatePrefixes();
    assert Plain("/api/status");
    assert Plain("/api/gateway/restart");
    assert Plain("/api/hermes/update/check");
  }

  lemma SessionsIsPlain()
    ensures PlainTable(SESSIONS)
  {
    assert Plain("/api/sessions");
    assert Plain("/api/sessions/");
    assert Plain("/api/sessions/search");
    assert Plain("/api/media");
  }

  lemma ConfigIsPlain()
    ensures PlainTable(CONFIG)
  {
    assert Plain("/api/config");
    assert Plain("/api/config/schema");
    assert Plain("/api/config/defaults");
    assert Plain("/api/env");
    assert Plain("/api/env/reveal");
  }

  lemma ProviderPrefixes()
    ensures Plain("/api/model/moa")
    ensures Plain("/api/providers/")
    ensures Plain("/api/local-models/")
  {}

  lemma ModelsIsPlain()
    ensures PlainTable(MODELS)
  {
    ProviderPrefixes();
    assert Plain("/api/model/");
    assert Plain("/api/model/set");
    assert Plain("/api/model/auxiliary");
  }

  lemma ProfilesIsPlain()
    ensures PlainTable(PROFILES)
  {}

  lemma CapabilitiesIsPlain()
    ensures PlainTable(CAPABILITIES)
  {
    assert Plain("/api/skills");
    assert Plain("/api/skills/");
    assert Plain("/api/tools/");
    assert Plain("/api/mcp/");
  }

  lemma WorkspaceIsPlain()
    ensures PlainTable(WORKSPACE)
  {}

  lemma LearningPrefixes()
    ensures Plain("/api/learning/node")
    ensures Plain("/api/curator")
    ensures Plain("/api/curator/")
  {}

  lemma KnowledgeIsPlain()
    ensures PlainTable(KNOWLEDGE)
  {
    LearningPrefixes();
    assert Plain("/api/memory");
    assert Plain("/api/memory/");
    assert Plain("/api/memory/providers/");
    assert Plain("/api/learning/");
  }

  lemma OperationsIsPlain()
    ensures PlainTable(OPERATIONS)
  {}

  lemma MessagingIsPlain()
    ensures PlainTable(MESSAGING)
  {
    assert Plain("/api/messaging/");
    assert Plain("/api/pairing");
    assert Plain("/api/pairing/");
    assert Plain("/api/webhooks");
    assert Plain("/api/webhooks/");
    assert Plain("/api/cron/");
  }

  lemma VoiceIsPlain()
    ensures PlainTable(VOICE)
  {}

  lemma PluginsIsPlain()
    ensures PlainTable(PLUGINS)
  {}

  lemma AreaIsPlain(area: Area)
    ensures PlainTable(RoutesOf(area))
  {
    match area
    case Status => StatusIsPlain();
    case Sessions => SessionsIsPlain();
    case Config => ConfigIsPlain();
    case Models => ModelsIsPlain();
    case Profiles => ProfilesIsPlain();
    case Capabilities => CapabilitiesIsPlain();
    case Workspace => WorkspaceIsPlain();
    case Knowledge => KnowledgeIsPlain();
    case Operations => OperationsIsPlain();
    case Messaging => MessagingIsPlain();
    case Voice => VoiceIsPlain();
    case Plugins => PluginsIsPlain();
  }

  lemma {:induction false} TableIsPlain(areas: seq<Area>)
    ensures PlainTable(TableOf(areas))
  {
    if areas != [] {
      TableIsPlain(areas[..|areas| - 1]);
      AreaIsPlain(areas[|areas| - 1]);
    }
  }

  /** For every accepted path the table decides the same on the raw and on the
      decoded spelling, so an escape cannot move a request across the table. */
  lemma EscapesDoNotChangeTheRoute(verb: Method, raw: string)
    requires Accepts(raw)
    ensures Allowed(TableOf(AREAS), verb, raw) <==> Allowed(TableOf(AREAS), verb, Decoded(raw))
  {
    TableIsPlain(AREAS);
    AllowedAgrees(TableOf(AREAS), verb, raw);
  }
}
