/**
 Properties of the DNS-over-HTTPS group configuration: the strict parser's
 all-or-nothing policy and its empty-document fall-through, the lax parser's
 best-effort policy, order sensitivity, and the round trips through both
 encodings.
 */
module DnsOverHttpsProperties {
  import opened Wrappers
  import opened BaseStrings
  import opened BaseValues
  import opened DnsOverHttps

  // ------------------------------------------------- text that opens a JSON object

  /** Whitespace followed by a character that is neither whitespace nor '{' does not open a JSON object. */
  lemma {:induction false} NotOpensObject(lead: string, rest: string)
    requires AllWhitespace(lead)
    requires |rest| > 0 && !IsAsciiWhitespace(rest[0]) && rest[0] != '{'
    ensures !OpensObject(lead + rest)
    decreases |lead|
  {
    if lead == [] {
      assert lead + rest == rest;
    } else {
      assert (lead + rest)[1..] == lead[1..] + rest;
      NotOpensObject(lead[1..], rest);
    }
  }

  /** Text of whitespace alone does not open a JSON object. */
  lemma {:induction false} BlankNotOpensObject(s: string)
    requires AllWhitespace(s)
    ensures !OpensObject(s)
    decreases |s|
  {
    if s != [] {
      BlankNotOpensObject(s[1..]);
    }
  }

  /** Text that opens a JSON object has a first token, and it starts with '{'. */
  lemma {:induction false} OpensObjectFirstToken(s: string, cur: string)
    requires OpensObject(s) && cur == []
    ensures SplitFrom(s, cur) != [] && SplitFrom(s, cur)[0][0] == '{'
    decreases |s|
  {
    if s[0] == '{' {
      assert !IsAsciiWhitespace(s[0]) && cur + [s[0]] == ['{'];
      SplitFromHead(s[1..], ['{']);
    } else {
      OpensObjectFirstToken(s[1..], []);
    }
  }

  /** Under the contract, text whose first token is a valid template is not read as a JSON dictionary. */
  lemma TemplateTextIsNotJson<S(!new)>(c: Collaborators<S>, lead: string, rest: string)
    requires Contract(c) && AllWhitespace(lead)
    requires |rest| > 0 && !IsAsciiWhitespace(rest[0]) && rest[0] != '{'
    ensures FromJson(c, lead + rest).None?
  {
    NotOpensObject(lead, rest);
  }

  // ------------------------------------------------------------ strict parsing

  /**
   Without a usable JSON document the strict parser is all-or-nothing over the
   templates: it succeeds exactly when there is at least one template and all
   of them are valid, and then the servers follow the templates one for one.
   */
  lemma StrictTemplatesAllOrNothing<S>(c: Collaborators<S>, dohConfig: string)
    requires FromJson(c, dohConfig).None? || FromJson(c, dohConfig) == Some(Config([]))
    ensures var ts := SplitGroup(dohConfig); var r := FromString(c, dohConfig);
      && (r.Some? <==> ts != [] && forall i :: 0 <= i < |ts| ==> c.serverFromString(ts[i]).Some?)
      && (r.Some? ==> |r.value.servers| == |ts| &&
                      forall i :: 0 <= i < |ts| ==> c.serverFromString(ts[i]) == Some(r.value.servers[i]))
  {
  }

  /**
   The JSON syntax never falls back to a successful template parse: when the
   text reads as a JSON dictionary, the strict parser returns its servers if
   there are any, and nothing otherwise.
   */
  lemma StrictJsonDocumentNeverFallsBack<S(!new)>(c: Collaborators<S>, dohConfig: string)
    requires Contract(c)
    requires c.jsonRead(dohConfig).Some? && c.jsonRead(dohConfig).value.Dict?
    ensures var parsed := FromJson(c, dohConfig);
      FromString(c, dohConfig) == if parsed.Some? && parsed.value.servers != [] then parsed else None
  {
    var parsed := FromJson(c, dohConfig);
    if !(parsed.Some? && parsed.value.servers != []) {
      OpensObjectFirstToken(dohConfig, []);
      var ts := SplitGroup(dohConfig);
      assert !c.serverFromString(ts[0]).Some?;
    }
  }

  /**
   The asymmetry of the two parsers on `{"servers": []}`: the lax parser
   returns the empty group at once, the strict one falls through to the
   template path, which rejects the text.
   */
  lemma EmptyServersAsymmetry<S(!new)>(c: Collaborators<S>, dohConfig: string)
    requires Contract(c)
    requires c.jsonRead(dohConfig) == Some(Dict(map[ServersKey := List([])]))
    ensures LaxParse(c, dohConfig) == Config([])
    ensures FromString(c, dohConfig) == None
  {
    StrictJsonDocumentNeverFallsBack(c, dohConfig);
  }

  /** Empty or blank input: the strict parser rejects it, the lax parser returns the empty group. */
  lemma BlankInput<S(!new)>(c: Collaborators<S>, dohConfig: string)
    requires Contract(c) && AllWhitespace(dohConfig)
    ensures FromString(c, dohConfig) == None
    ensures LaxParse(c, dohConfig) == Config([])
  {
    BlankNotOpensObject(dohConfig);
    SplitBlank(dohConfig, []);
  }

  /**
   One valid and one invalid template: the strict parser rejects the group,
   the lax parser keeps exactly the valid server.
   */
  lemma PartialValidity<S(!new)>(c: Collaborators<S>, good: string, bad: string)
    requires Contract(c)
    requires c.serverFromString(good).Some? && c.serverFromString(bad).None? && IsToken(bad)
    ensures FromString(c, good + " " + bad) == None
    ensures LaxParse(c, good + " " + bad) == Config([c.serverFromString(good).value])
  {
    var text := good + " " + bad;
    assert text == Join([good, bad], " ");
    assert [] + text == text;
    TemplateTextIsNotJson(c, [], text);
    SplitJoin([good, bad], " ");
    var ps := ParseTemplates(c, [good, bad]);
    assert SplitGroup(text) == [good, bad];
    assert ps == [c.serverFromString(good), None];
    assert ps[..1] == [c.serverFromString(good)];
    assert ps[..1][..0] == [];
    assert Present(ps) == Present(ps[..1]) == [c.serverFromString(good).value];
  }

  /** Leading, trailing and repeated whitespace do not change what the strict parser returns. */
  lemma StrictIgnoresPadding<S(!new)>(c: Collaborators<S>, ts: seq<string>, sep: string, lead: string, trail: string)
    requires Contract(c)
    requires |ts| > 0 && (forall i :: 0 <= i < |ts| ==> IsToken(ts[i])) && |ts[0]| > 0 && ts[0][0] != '{'
    requires |sep| > 0 && AllWhitespace(sep) && AllWhitespace(lead) && AllWhitespace(trail)
    ensures FromString(c, lead + Join(ts, sep) + trail) == FromString(c, Join(ts, " "))
  {
    var padded := lead + Join(ts, sep) + trail;
    JoinStartsWithFirst(ts, sep);
    assert padded == lead + (Join(ts, sep) + trail);
    TemplateTextIsNotJson(c, lead, Join(ts, sep) + trail);
    JoinStartsWithFirst(ts, " ");
    assert [] + Join(ts, " ") == Join(ts, " ");
    TemplateTextIsNotJson(c, [], Join(ts, " "));
    SplitIgnoresPadding(ts, sep, lead, trail);
    SplitJoin(ts, " ");
  }

  /** Order matters: two different valid templates give different groups in the two orders. */
  lemma StrictParseIsOrderSensitive<S(!new)>(c: Collaborators<S>, a: string, b: string)
    requires Contract(c)
    requires c.serverFromString(a).Some? && c.serverFromString(b).Some?
    requires c.serverFromString(a) != c.serverFromString(b)
    ensures FromString(c, a + " " + b).Some? && FromString(c, b + " " + a).Some?
    ensures !Equals(FromString(c, a + " " + b).value, FromString(c, b + " " + a).value)
  {
    assert a + " " + b == Join([a, b], " ");
    assert b + " " + a == Join([b, a], " ");
    assert [] + (a + " " + b) == a + " " + b;
    assert [] + (b + " " + a) == b + " " + a;
    TemplateTextIsNotJson(c, [], a + " " + b);
    TemplateTextIsNotJson(c, [], b + " " + a);
    SplitJoin([a, b], " ");
    SplitJoin([b, a], " ");
  }

  // -------------------------------------------------------------- lax parsing

  /**
   Without a JSON document the lax parser keeps exactly the servers some
   token parses to, and when every token is valid it agrees with the
   template path of the strict parser.
   */
  lemma LaxKeepsValidTokens<S>(c: Collaborators<S>, dohConfig: string)
    requires FromJson(c, dohConfig).None?
    ensures var ts := SplitGroup(dohConfig);
      forall x :: x in LaxParse(c, dohConfig).servers <==>
        exists i :: 0 <= i < |ts| && c.serverFromString(ts[i]) == Some(x)
    ensures var ts := SplitGroup(dohConfig);
      (forall i :: 0 <= i < |ts| ==> c.serverFromString(ts[i]).Some?) ==>
        Some(LaxParse(c, dohConfig)) == GroupOfTemplates(c, ts)
  {
    var ts := SplitGroup(dohConfig);
    var ps := ParseTemplates(c, ts);
    forall x
      ensures x in LaxParse(c, dohConfig).servers <==> exists i :: 0 <= i < |ts| && c.serverFromString(ts[i]) == Some(x)
    {
      if exists i :: 0 <= i < |ts| && c.serverFromString(ts[i]) == Some(x) {
        var i :| 0 <= i < |ts| && c.serverFromString(ts[i]) == Some(x);
        assert ps[i] == Some(x);
        PresentKeeps(ps, x);
      }
      if x in Present(ps) {
        var i :| 0 <= i < |ps| && ps[i] == Some(x);
        assert c.serverFromString(ts[i]) == Some(x);
      }
    }
    if forall i :: 0 <= i < |ts| ==> c.serverFromString(ts[i]).Some? {
      PresentWhenAllPresent(ps);
    }
  }

  /** Whenever the strict parser succeeds, the lax parser returns the same group. */
  lemma LaxAgreesWithStrict<S(!new)>(c: Collaborators<S>, dohConfig: string)
    requires Contract(c)
    requires FromString(c, dohConfig).Some?
    ensures LaxParse(c, dohConfig) == FromString(c, dohConfig).value
  {
    var parsed := FromJson(c, dohConfig);
    if parsed.Some? {
      StrictJsonDocumentNeverFallsBack(c, dohConfig);
    } else {
      PresentWhenAllPresent(ParseTemplates(c, SplitGroup(dohConfig)));
    }
  }

  // ------------------------------------------------------------ serialisation

  /** Decoding the structured encoding gives the group back. */
  lemma ToValueRoundTrip<S(!new)>(c: Collaborators<S>, g: Config<S>)
    requires Contract(c)
    ensures DecodeDict(c, EncodeGroup(c, g)) == Some(g)
  {
    var d := DecodeDict(c, EncodeGroup(c, g));
    assert d.Some?;
    assert forall i :: 0 <= i < |g.servers| ==> d.value.servers[i] == g.servers[i];
    assert d.value.servers == g.servers;
  }

  /**
   The text form round-trips through the strict parser for every non-empty
   group, in both branches of ToString: the newline-joined templates when all
   servers are simple (TemplatesRoundTrip), the JSON encoding otherwise.
   */
  lemma ToStringRoundTrip<S(!new)>(c: Collaborators<S>, g: Config<S>)
    requires Contract(c) && g.servers != []
    ensures FromString(c, ToString(c, g)) == Some(g)
  {
    if AllSimple(c, g.servers) {
      TemplatesRoundTrip(c, g);
    } else {
      ToValueRoundTrip(c, g);
    }
  }

  /** The simple branch of ToString: the newline-joined templates parse back, in order. */
  lemma TemplatesRoundTrip<S(!new)>(c: Collaborators<S>, g: Config<S>)
    requires Contract(c) && g.servers != [] && AllSimple(c, g.servers)
    ensures FromString(c, Join(ServerTemplates(c, g.servers), "\n")) == Some(g)
  {
    var ts := ServerTemplates(c, g.servers);
    var text := Join(ts, "\n");
    TemplatesTextIsNotJson(c, g);
    SplitJoin(ts, "\n");
    var r := GroupOfTemplates(c, ts);
    assert forall i :: 0 <= i < |ts| ==> r.value.servers[i] == g.servers[i];
    assert r.value.servers == g.servers;
  }

  /** The newline-joined templates of simple servers do not read as a JSON object. */
  lemma TemplatesTextIsNotJson<S(!new)>(c: Collaborators<S>, g: Config<S>)
    requires Contract(c) && g.servers != [] && AllSimple(c, g.servers)
    ensures FromJson(c, Join(ServerTemplates(c, g.servers), "\n")).None?
  {
    var ts := ServerTemplates(c, g.servers);
    var text := Join(ts, "\n");
    assert c.serverFromString(ts[0]) == Some(g.servers[0]);
    JoinStartsWithFirst(ts, "\n");
    assert [] + text == text;
    TemplateTextIsNotJson(c, [], text);
  }

  /** The empty group prints as the empty text, which the strict parser rejects (so it is the one group that does not round-trip). */
  lemma EmptyGroupDoesNotRoundTrip<S(!new)>(c: Collaborators<S>)
    requires Contract(c)
    ensures ToString(c, Config([])) == ""
    ensures FromString(c, ToString(c, Config([]))) == None
  {
    BlankInput(c, "");
  }

  /** The text form never ends in whitespace: no trailing newline after the last template, and none after the JSON. */
  lemma ToStringNoTrailingWhitespace<S(!new)>(c: Collaborators<S>, g: Config<S>)
    requires Contract(c)
    ensures var text := ToString(c, g); text == [] || !IsAsciiWhitespace(text[|text| - 1])
  {
    if AllSimple(c, g.servers) && g.servers != [] {
      var ts := ServerTemplates(c, g.servers);
      var last := ts[|ts| - 1];
      assert c.serverFromString(last) == Some(g.servers[|ts| - 1]);
      JoinEndsWithLast(ts, "\n");
      var text := Join(ts, "\n");
      assert text[|text| - 1] == text[|text| - |last|..][|last| - 1];
    }
  }
}
