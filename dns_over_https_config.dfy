/**
 A DNS-over-HTTPS (RFC 8484) resolver group: an ordered list of server
 endpoints, its two text syntaxes (a JSON document `{"servers": [...]}` and a
 whitespace-separated list of URI templates), the strict and the lax parser,
 equality and the two encodings.

 The per-server type and the JSON reader/writer are collaborators whose code
 is not part of this model: they are passed in as `Collaborators`, and what
 the round-trip lemmas rely on is stated once, as `Contract`.
 */
module DnsOverHttps {
  import opened Wrappers
  import opened BaseStrings
  import opened BaseValues

  /**
   The operations the group uses on its collaborators:
   DnsOverHttpsServerConfig::FromString, ::FromValue, IsSimple,
   server_template_piece and ToValue; base::JSONReader::Read and
   base::JSONWriter::WriteWithOptions with OPTIONS_PRETTY_PRINT (whose CHECK
   never fails, so it is total here).
   */
  datatype Collaborators<!S> = Collaborators(
    serverFromString: string -> Option<S>,
    serverFromValue: Dict -> Option<S>,
    isSimple: S -> bool,
    serverTemplate: S -> string,
    serverToValue: S -> Dict,
    jsonRead: string -> Option<Value>,
    jsonWritePretty: Value -> string)

  /** The text begins, after optional ASCII whitespace, with '{'. */
  predicate OpensObject(s: string) {
    |s| > 0 && (s[0] == '{' || (IsAsciiWhitespace(s[0]) && OpensObject(s[1..])))
  }

  /**
   What the group's round-trip properties assume of its collaborators:
   a valid template is a single whitespace-free token that cannot begin a JSON
   object (DoH templates are https URIs); a simple server is rebuilt from its
   own template; every server is rebuilt from its structured value; the reader
   accepts the pretty-printer's output once trailing whitespace is trimmed; and
   text the reader takes for a dictionary begins with '{'.
   */
  ghost predicate Contract<S(!new)>(c: Collaborators<S>) {
    && (forall t :: c.serverFromString(t).Some? ==> IsToken(t) && t[0] != '{')
    && (forall s :: c.isSimple(s) ==> c.serverFromString(c.serverTemplate(s)) == Some(s))
    && (forall s :: c.serverFromValue(c.serverToValue(s)) == Some(s))
    && (forall v :: c.jsonRead(TrimTrailingWhitespace(c.jsonWritePretty(v))) == Some(v))
    && (forall text :: c.jsonRead(text).Some? && c.jsonRead(text).value.Dict? ==> OpensObject(text))
  }

  /** DnsOverHttpsConfig: the servers, in order of preference. */
  datatype Config<S> = Config(servers: seq<S>)

  /** kJsonKeyServers. */
  const ServersKey: string := "servers"

  // ---------------------------------------------------------------- parsing

  /** SplitGroup: the templates of a group are separated by ASCII whitespace. */
  function SplitGroup(group: string): (r: seq<string>)
    ensures forall i :: 0 <= i < |r| ==> IsToken(r[i])
    ensures Concat(r) == RemoveWhitespace(group)
  {
    SplitOnWhitespace(group)
  }

  /** ParseTemplates: each template through the server parser, one result per template. */
  function ParseTemplates<S>(c: Collaborators<S>, templates: seq<string>): (r: seq<Option<S>>)
    ensures |r| == |templates|
    ensures forall i :: 0 <= i < |r| ==> r[i] == c.serverFromString(templates[i])
  {
    if templates == [] then []
    else [c.serverFromString(templates[0])] + ParseTemplates(c, templates[1..])
  }

  /** The group built from already split templates (what FromTemplates computes). */
  function GroupOfTemplates<S>(c: Collaborators<S>, templates: seq<string>): (r: Option<Config<S>>)
    ensures r.Some? <==> forall i :: 0 <= i < |templates| ==> c.serverFromString(templates[i]).Some?
    ensures r.Some? ==> |r.value.servers| == |templates|
    ensures r.Some? ==> forall i :: 0 <= i < |templates| ==> c.serverFromString(templates[i]) == Some(r.value.servers[i])
  {
    match AllPresent(ParseTemplates(c, templates))
    case None => None
    case Some(servers) => Some(Config(servers))
  }

  /**
   DnsOverHttpsConfig::FromTemplates: all templates must be valid for the
   group to be valid; the servers keep the order of their templates.
   */
  method FromTemplates<S>(c: Collaborators<S>, serverTemplates: seq<string>) returns (r: Option<Config<S>>)
    ensures r == GroupOfTemplates(c, serverTemplates)
  {
    var parsed := ParseTemplates(c, serverTemplates);
    var servers: seq<S> := [];
    var i := 0;
    while i < |parsed|
      invariant 0 <= i <= |parsed|
      invariant |servers| == i
      invariant forall j :: 0 <= j < i ==> parsed[j] == Some(servers[j])
    {
      var serverConfig := parsed[i];
      if serverConfig.None? {
        return None;
      }
      servers := servers + [serverConfig.value];
      i := i + 1;
    }
    ghost var expected := GroupOfTemplates(c, serverTemplates);
    assert forall j :: 0 <= j < |servers| ==> servers[j] == expected.value.servers[j];
    assert servers == expected.value.servers;
    return Some(Config(servers));
  }

  /** One element of the "servers" list: a dictionary the server parser accepts. */
  function DecodeServer<S>(c: Collaborators<S>, elt: Value): Option<S> {
    if elt.Dict? then c.serverFromValue(elt.entries) else None
  }

  /**
   The group a structured document describes (what FromValue computes): it
   exists exactly when the document has a "servers" list whose every element
   is a dictionary that decodes to a server, and then it holds those servers
   in list order. One bad element rejects the whole document.
   */
  function DecodeDict<S>(c: Collaborators<S>, value: Dict): (r: Option<Config<S>>)
    ensures r.Some? <==>
      && ServersKey in value && value[ServersKey].List?
      && forall i :: 0 <= i < |value[ServersKey].items| ==>
           value[ServersKey].items[i].Dict? && c.serverFromValue(value[ServersKey].items[i].entries).Some?
    ensures r.Some? ==>
      && |r.value.servers| == |value[ServersKey].items|
      && forall i :: 0 <= i < |r.value.servers| ==>
           c.serverFromValue(value[ServersKey].items[i].entries) == Some(r.value.servers[i])
  {
    match FindList(value, ServersKey)
    case None => None
    case Some(list) =>
      var decoded := seq(|list|, i requires 0 <= i < |list| => DecodeServer(c, list[i]));
      assert forall i :: 0 <= i < |list| ==> decoded[i] == DecodeServer(c, list[i]);
      match AllPresent(decoded)
      case None => None
      case Some(servers) => Some(Config(servers))
  }

  /** FromValue: walks the "servers" list, giving up at the first element that is not a valid server dictionary. */
  method FromValue<S>(c: Collaborators<S>, value: Dict) returns (r: Option<Config<S>>)
    ensures r == DecodeDict(c, value)
  {
    var serversValue := FindList(value, ServersKey);
    if serversValue.None? {
      return None;
    }
    var list := serversValue.value;
    var servers: seq<S> := [];
    var i := 0;
    while i < |list|
      invariant 0 <= i <= |list|
      invariant |servers| == i
      invariant forall j :: 0 <= j < i ==> list[j].Dict? && c.serverFromValue(list[j].entries) == Some(servers[j])
    {
      var elt := list[i];
      if !elt.Dict? {
        return None;
      }
      var parsed := c.serverFromValue(elt.entries);
      if parsed.None? {
        return None;
      }
      servers := servers + [parsed.value];
      i := i + 1;
    }
    ghost var expected := DecodeDict(c, value);
    assert forall j :: 0 <= j < |servers| ==> servers[j] == expected.value.servers[j];
    assert servers == expected.value.servers;
    return Some(Config(servers));
  }

  /** FromJson: nothing unless the text reads as JSON and the top-level value is a dictionary. */
  function FromJson<S>(c: Collaborators<S>, json: string): (r: Option<Config<S>>)
    ensures c.jsonRead(json).None? ==> r.None?
    ensures c.jsonRead(json).Some? && !c.jsonRead(json).value.Dict? ==> r.None?
    ensures r.Some? ==> c.jsonRead(json).value.Dict? && r == DecodeDict(c, c.jsonRead(json).value.entries)
    ensures c.jsonRead(json).Some? && c.jsonRead(json).value.Dict? ==> r == DecodeDict(c, c.jsonRead(json).value.entries)
  {
    match c.jsonRead(json)
    case Some(Dict(d)) => DecodeDict(c, d)
    case _ => None
  }

  /**
   DnsOverHttpsConfig::FromString, the strict parser: a JSON document with at
   least one server, or else a non-empty list of templates that are all
   valid. It never returns an empty group.
   */
  function FromString<S>(c: Collaborators<S>, dohConfig: string): (r: Option<Config<S>>)
    ensures r.Some? ==> |r.value.servers| > 0
  {
    var parsed := FromJson(c, dohConfig);
    if parsed.Some? && |parsed.value.servers| > 0 then parsed
    else
      var serverTemplates := SplitGroup(dohConfig);
      if serverTemplates == [] then None
      else GroupOfTemplates(c, serverTemplates)
  }

  /**
   The lax parser's result (what FromStringLax computes): any JSON document
   that decodes, even to no servers; otherwise the valid templates, in order.
   */
  function LaxParse<S>(c: Collaborators<S>, dohConfig: string): Config<S> {
    match FromJson(c, dohConfig)
    case Some(parsed) => parsed
    case None => Config(Present(ParseTemplates(c, SplitGroup(dohConfig))))
  }

  /** DnsOverHttpsConfig::FromStringLax: never fails; invalid templates are dropped. */
  method FromStringLax<S>(c: Collaborators<S>, dohConfig: string) returns (r: Config<S>)
    ensures r == LaxParse(c, dohConfig)
  {
    var json := FromJson(c, dohConfig);
    if json.Some? {
      return json.value;
    }
    var parsed := ParseTemplates(c, SplitGroup(dohConfig));
    var servers: seq<S> := [];
    var i := 0;
    while i < |parsed|
      invariant 0 <= i <= |parsed|
      invariant servers == Present(parsed[..i])
    {
      assert parsed[..i + 1][..i] == parsed[..i];
      if parsed[i].Some? {
        servers := servers + [parsed[i].value];
      }
      i := i + 1;
    }
    assert parsed[..i] == parsed;
    return Config(servers);
  }

  // --------------------------------------------------------------- equality

  /** operator==: entrywise, order-sensitive comparison of the server lists. */
  function Equals<S(==)>(a: Config<S>, b: Config<S>): (r: bool)
    ensures r <==> |a.servers| == |b.servers| && forall i :: 0 <= i < |a.servers| ==> a.servers[i] == b.servers[i]
  {
    a.servers == b.servers
  }

  // ---------------------------------------------------------- serialisation

  /** Every server carries nothing beyond its template. */
  predicate AllSimple<S>(c: Collaborators<S>, servers: seq<S>) {
    forall i :: 0 <= i < |servers| ==> c.isSimple(servers[i])
  }

  /** The servers' templates, in order. */
  function ServerTemplates<S>(c: Collaborators<S>, servers: seq<S>): (r: seq<string>)
    ensures |r| == |servers| && forall i :: 0 <= i < |r| ==> r[i] == c.serverTemplate(servers[i])
  {
    seq(|servers|, i requires 0 <= i < |servers| => c.serverTemplate(servers[i]))
  }

  /** The servers' structured values, in order. */
  function ServerValues<S>(c: Collaborators<S>, servers: seq<S>): (r: seq<Value>)
    ensures |r| == |servers| && forall i :: 0 <= i < |r| ==> r[i] == Dict(c.serverToValue(servers[i]))
  {
    seq(|servers|, i requires 0 <= i < |servers| => Dict(c.serverToValue(servers[i])))
  }

  /** The structured encoding (what ToValue computes): {"servers": [each server's value]}. */
  function EncodeGroup<S>(c: Collaborators<S>, g: Config<S>): Dict {
    map[ServersKey := List(ServerValues(c, g.servers))]
  }

  /** DnsOverHttpsConfig::ToValue: appends each server's value to the "servers" list. */
  method ToValue<S>(c: Collaborators<S>, g: Config<S>) returns (r: Dict)
    ensures r.Keys == {ServersKey} && r[ServersKey].List?
    ensures r == EncodeGroup(c, g)
  {
    var list: seq<Value> := [];
    var i := 0;
    while i < |g.servers|
      invariant 0 <= i <= |g.servers|
      invariant |list| == i
      invariant forall j :: 0 <= j < i ==> list[j] == Dict(c.serverToValue(g.servers[j]))
    {
      list := list + [Dict(c.serverToValue(g.servers[i]))];
      i := i + 1;
    }
    assert list == ServerValues(c, g.servers);
    r := map[ServersKey := List(list)];
  }

  /**
   DnsOverHttpsConfig::ToString: the templates on separate lines when every
   server is simple, otherwise the pretty-printed structured encoding without
   its trailing newline.
   */
  function ToString<S>(c: Collaborators<S>, g: Config<S>): (r: string)
    ensures g.servers == [] ==> r == ""
    ensures g.servers != [] && AllSimple(c, g.servers) ==> r == Join(ServerTemplates(c, g.servers), "\n")
    ensures !AllSimple(c, g.servers) ==> r <= c.jsonWritePretty(Dict(EncodeGroup(c, g)))
  {
    if AllSimple(c, g.servers) then Join(ServerTemplates(c, g.servers), "\n")
    else TrimTrailingWhitespace(c.jsonWritePretty(Dict(EncodeGroup(c, g))))
  }
}
