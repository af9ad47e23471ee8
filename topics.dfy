/**
 * Topic resolution of the Waku provider (`buildFullTopics` and `defaultIntentsTopics`): a user
 * topic spec is expanded into the content-topic strings used on the wire by substituting names into
 * the configured content-topic template. Five rules, tried in order, the first match wins.
 */
module Topics {
  import opened Wrappers
  import opened JsString
  import Utils

  /** The provider configuration (`WakuConfig`), read once from the environment. */
  datatype Config = Config(
    staticPeers: string,   // comma-separated peer addresses
    pingCount: int,        // attempts of the peer wait and of the subscription ping
    topics: string,        // comma-separated topic names of the default fan-out
    contentTopic: string)  // the content-topic template with its placeholder

  /** The token of the template that a topic name replaces. */
  const Placeholder := "PLACEHOLDER"

  /** The defaults `getWakuConfig` falls back to; the template is `/waku/2/PLACEHOLDER/proto`. */
  const DefaultConfig := Config("", 10, "default", "/waku/2/" + Placeholder + "/proto")

  /** The number of random bytes drawn for a "random" topic spec. */
  const RandomByteLength := 16

  /** `!topic` in JavaScript: an absent spec and the empty string are both "no spec". */
  predicate Falsy(topic: Option<string>)
  {
    topic.None? || topic.value == ""
  }

  /** `template.replace("PLACEHOLDER", name)`. */
  function Fill(template: string, name: string): string
  {
    ReplaceFirst(template, Placeholder, name)
  }

  /** Substitutes each trimmed name into the template, keeping the order of the names. */
  function FillTrimmed(template: string, names: seq<string>): seq<string>
  {
    seq(|names|, i requires 0 <= i < |names| => Fill(template, Trim(names[i])))
  }

  /** `defaultIntentsTopics()`: one content topic per comma-separated entry of `config.topics`. */
  function DefaultIntentsTopics(cfg: Config): seq<string>
  {
    FillTrimmed(cfg.contentTopic, Split(cfg.topics, ','))
  }

  /** `buildFullTopics(topic)`, with the bytes `randomHexString(16)` draws as a parameter (they are
      used only by the "random" rule, which formats whatever bytes it is given; the random source
      supplies 16). Which random source drew them makes no difference to the result. Never empty,
      because `split` never is. */
  function BuildFullTopics(cfg: Config, topic: Option<string>, randomBytes: seq<Utils.byte>): (r: seq<string>)
    ensures |r| >= 1
  {
    if Falsy(topic) then
      DefaultIntentsTopics(cfg)
    else if Includes(topic.value, "random") then
      [Fill(cfg.contentTopic, Utils.RandomHexString(true, |randomBytes|, randomBytes))]
    else if Includes(topic.value, ",") then
      FillTrimmed(cfg.contentTopic, Split(topic.value, ','))
    else if !StartsWith(topic.value, "/") then
      [Fill(cfg.contentTopic, topic.value)]
    else
      [topic.value]
  }

  // ---------------------------------------------------------------------------------------------
  // The five rules
  // ---------------------------------------------------------------------------------------------

  /** Rule 1: no spec gives one topic per comma-separated configured name, in order, each name
      trimmed; when the template holds the placeholder and the names hold no `$`, each topic is the
      template with its first placeholder swapped for the trimmed name. */
  lemma DefaultFanOut(cfg: Config, topic: Option<string>, randomBytes: seq<Utils.byte>)
    requires Falsy(topic)
    ensures var r := BuildFullTopics(cfg, topic, randomBytes); var names := Split(cfg.topics, ',');
      && |r| == |names| == multiset(cfg.topics)[','] + 1
      && (forall i :: 0 <= i < |r| ==> r[i] == Fill(cfg.contentTopic, Trim(names[i])))
      && (Includes(cfg.contentTopic, Placeholder) && '$' !in cfg.topics ==>
            var p := IndexOf(cfg.contentTopic, Placeholder).value;
            forall i :: 0 <= i < |r| ==>
              r[i] == cfg.contentTopic[..p] + Trim(names[i]) + cfg.contentTopic[p + |Placeholder|..])
  {
    var names := Split(cfg.topics, ',');
    SplitCount(cfg.topics, ',');
    if Includes(cfg.contentTopic, Placeholder) && '$' !in cfg.topics {
      SplitPiecesFromSource(cfg.topics, ',', '$');
      forall i | 0 <= i < |names|
        ensures Fill(cfg.contentTopic, Trim(names[i])) ==
          cfg.contentTopic[..IndexOf(cfg.contentTopic, Placeholder).value] + Trim(names[i])
          + cfg.contentTopic[IndexOf(cfg.contentTopic, Placeholder).value + |Placeholder|..]
      {
        TrimFromSource(names[i], '$');
        ReplaceFirstSplices(cfg.contentTopic, Placeholder, Trim(names[i]));
      }
    }
  }

  /** Rule 2: a spec containing "random" gives exactly one topic, even when it also contains a
      comma, whatever the template; the template's first placeholder, if it has one, becomes the
      lowercase hex of the drawn bytes (32 digits for the 16 bytes drawn), and a template without
      the placeholder is the topic itself. */
  lemma RandomRuleWins(cfg: Config, spec: string, randomBytes: seq<Utils.byte>)
    requires Includes(spec, "random")
    ensures var r := BuildFullTopics(cfg, Some(spec), randomBytes);
      var hex := Utils.HexOfBytes(randomBytes);
      && |r| == 1
      && (Includes(cfg.contentTopic, Placeholder) ==>
            var p := IndexOf(cfg.contentTopic, Placeholder).value;
            r[0] == cfg.contentTopic[..p] + hex + cfg.contentTopic[p + |Placeholder|..])
      && (!Includes(cfg.contentTopic, Placeholder) ==> r[0] == cfg.contentTopic)
      && (|randomBytes| == RandomByteLength ==> |hex| == 32)
      && Utils.AllLowerHex(hex)
  {
    var hex := Utils.HexOfBytes(randomBytes);
    Utils.HexIsLowercaseDigits(randomBytes);
    if Includes(cfg.contentTopic, Placeholder) {
      ReplaceFirstSplices(cfg.contentTopic, Placeholder, hex);
    }
  }

  /** Rule 3: a spec with a comma (and no "random") gives one topic per comma-separated piece, in
      order, each piece trimmed before substitution. */
  lemma CommaRule(cfg: Config, spec: string, randomBytes: seq<Utils.byte>)
    requires !Includes(spec, "random") && ',' in spec
    ensures var r := BuildFullTopics(cfg, Some(spec), randomBytes); var pieces := Split(spec, ',');
      && |r| == |pieces| == multiset(spec)[','] + 1
      && |r| >= 2
      && forall i :: 0 <= i < |r| ==> r[i] == Fill(cfg.contentTopic, Trim(pieces[i]))
  {
    IncludesUnit(spec, ',');
    SplitCount(spec, ',');
    assert multiset(spec)[','] >= 1;
  }

  /** Rule 4: a single name that does not start with '/' is substituted as it is, not trimmed. */
  lemma PartialTopicRule(cfg: Config, spec: string, randomBytes: seq<Utils.byte>)
    requires spec != "" && !Includes(spec, "random") && ',' !in spec && spec[0] != '/'
    ensures BuildFullTopics(cfg, Some(spec), randomBytes) == [Fill(cfg.contentTopic, spec)]
  {
    IncludesUnit(spec, ',');
  }

  /** Rule 5: a single spec starting with '/' is taken as a complete content topic, unchanged. */
  lemma FullTopicRule(cfg: Config, spec: string, randomBytes: seq<Utils.byte>)
    requires spec != "" && !Includes(spec, "random") && ',' !in spec && spec[0] == '/'
    ensures BuildFullTopics(cfg, Some(spec), randomBytes) == [spec]
  {
    IncludesUnit(spec, ',');
  }

  /** Without "random" in the spec the drawn bytes play no part: resolving twice gives the same
      topics, which is what lets `unsubscribe` find what `subscribe` stored. */
  lemma ResolutionDeterministic(cfg: Config, topic: Option<string>, a: seq<Utils.byte>, b: seq<Utils.byte>)
    requires Falsy(topic) || !Includes(topic.value, "random")
    ensures BuildFullTopics(cfg, topic, a) == BuildFullTopics(cfg, topic, b)
  {
  }

  // ---------------------------------------------------------------------------------------------
  // Worked examples
  // ---------------------------------------------------------------------------------------------

  /** Only the first "PLACEHOLDER" of the template is replaced: a template that repeats the
      placeholder keeps the second one. */
  lemma OnlyFirstPlaceholderReplaced()
    ensures Fill("/a/" + Placeholder + "/" + Placeholder, "x") == "/a/x/" + Placeholder
  {
    var t := "/a/" + Placeholder + "/" + Placeholder;
    assert t[0] == '/' && t[1] == 'a' && t[2] == '/';
    assert IndexOfFrom(t, Placeholder, 0) == IndexOfFrom(t, Placeholder, 1) by {
      assert t[0..11][0] != Placeholder[0];
    }
    assert IndexOfFrom(t, Placeholder, 1) == IndexOfFrom(t, Placeholder, 2) by {
      assert t[1..12][0] != Placeholder[0];
    }
    assert IndexOfFrom(t, Placeholder, 2) == IndexOfFrom(t, Placeholder, 3) by {
      assert t[2..13][0] != Placeholder[0];
    }
    assert t[3..14] == Placeholder;
    assert IndexOf(t, Placeholder) == Some(3);
    ReplaceFirstSplices(t, Placeholder, "x");
    assert t[..3] == "/a/";
    assert t[14..] == "/" + Placeholder;
  }

  /** The default template holds its placeholder at position 8. */
  lemma DefaultTemplatePlaceholder()
    ensures IndexOf(DefaultConfig.contentTopic, Placeholder) == Some(8)
  {
    var t := DefaultConfig.contentTopic;
    forall j | 0 <= j < 8 ensures !MatchesAt(t, Placeholder, j) {
      assert t[j] != Placeholder[0];
    }
    assert MatchesAt(t, Placeholder, 8);
  }

  /** The default template filled with the default topic name. */
  lemma DefaultTemplateFilled()
    ensures Fill(DefaultConfig.contentTopic, "default") == "/waku/2/" + "default" + "/proto"
  {
    var t := DefaultConfig.contentTopic;
    DefaultTemplatePlaceholder();
    ReplaceFirstSplices(t, Placeholder, "default");
    assert t[..8] == "/waku/2/";
    assert t[8 + |Placeholder|..] == "/proto";
  }

  /** The default `topics` setting names the one topic "default". */
  lemma DefaultNames()
    ensures Split(DefaultConfig.topics, ',') == ["default"]
  {
    SplitWithoutSeparator("default", ',');
  }

  /** `defaultIntentsTopics()` with the configuration defaults is the single topic
      `/waku/2/default/proto`. */
  lemma DefaultIntentsOfDefaultConfig()
    ensures DefaultIntentsTopics(DefaultConfig) == ["/waku/2/" + "default" + "/proto"]
  {
    var t := DefaultConfig.contentTopic;
    DefaultNames();
    TrimKeepsInner("default");
    assert FillTrimmed(t, ["default"]) == [Fill(t, "default")];
    DefaultTemplateFilled();
  }

  /** With the configuration defaults, no spec resolves to the single topic `/waku/2/default/proto`. */
  lemma DefaultConfigResolves(randomBytes: seq<Utils.byte>)
    ensures BuildFullTopics(DefaultConfig, None, randomBytes) == ["/waku/2/" + "default" + "/proto"]
  {
    DefaultIntentsOfDefaultConfig();
  }
}
