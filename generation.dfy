/**
  The cause and effect lists built by WindfarmBot.__init__ and the
  utterance generator WindfarmBot.generate.
*/
module Generation {
  import opened Outcomes
  import opened Settings

  /** A (text, singular) pair of the bot's `causes` list. */
  datatype Cause = Cause(text: string, singular: bool)

  /** The word lists the constructor leaves in the bot; nothing changes them afterwards. */
  datatype Vocabulary = Vocabulary(causes: seq<Cause>, effects: seq<string>, phrases: seq<string>)

  /** The two random indices generate may draw: into the causes and into the effect candidates. */
  datatype Draw = Draw(cause: nat, effect: nat)

  /** What an utterance says before it is formatted. */
  datatype Sentence = Sentence(cause: string, singular: bool, effect: string)

  // ---------------------------------------------------------------- construction

  predicate KeysConfigured(keys: ApiKeys) {
    && keys.consumerKey != Placeholder
    && keys.consumerSecret != Placeholder
    && keys.accessKey != Placeholder
    && keys.accessSecret != Placeholder
  }

  function Tagged(words: seq<string>, singular: bool): (r: seq<Cause>)
    ensures |r| == |words|
    ensures forall i :: 0 <= i < |words| ==> r[i] == Cause(words[i], singular)
  {
    seq(|words|, i requires 0 <= i < |words| => Cause(words[i], singular))
  }

  function Texts(causes: seq<Cause>): (r: seq<string>)
    ensures |r| == |causes|
    ensures forall i :: 0 <= i < |causes| ==> r[i] == causes[i].text
  {
    seq(|causes|, i requires 0 <= i < |causes| => causes[i].text)
  }

  /** `effects == None or len(list(effects)) == 0`: fall back to the cause texts. */
  predicate DefaultEffects(effects: Option<seq<string>>) {
    effects.None? || |effects.value| == 0
  }

  /** The constructor's checks and lists: the credential check, then singular causes, plural causes, effects, phrases. */
  function Construct(cfg: Config): (r: Result<Vocabulary>)
    ensures r.Err? <==>
      cfg.apiKeys.consumerKey == Placeholder || cfg.apiKeys.consumerSecret == Placeholder ||
      cfg.apiKeys.accessKey == Placeholder || cfg.apiKeys.accessSecret == Placeholder
    ensures r.Err? ==> r.error == ConfigException
    ensures r.Ok? ==> |r.value.causes| == |cfg.singular| + |cfg.plural|
    ensures r.Ok? ==> forall i :: 0 <= i < |cfg.singular| ==> r.value.causes[i] == Cause(cfg.singular[i], true)
    ensures r.Ok? ==> forall j :: |cfg.singular| <= j < |r.value.causes| ==>
      r.value.causes[j] == Cause(cfg.plural[j - |cfg.singular|], false)
    ensures r.Ok? && DefaultEffects(cfg.effects) ==> r.value.effects == cfg.singular + cfg.plural
    ensures r.Ok? && !DefaultEffects(cfg.effects) ==> r.value.effects == cfg.effects.value
    ensures r.Ok? ==> r.value.phrases == cfg.phrases
  {
    if !KeysConfigured(cfg.apiKeys) then Err(ConfigException)
    else
      var causes := Tagged(cfg.singular, true) + Tagged(cfg.plural, false);
      var effects := if DefaultEffects(cfg.effects) then Texts(causes) else cfg.effects.value;
      assert DefaultEffects(cfg.effects) ==> effects == cfg.singular + cfg.plural;
      Ok(Vocabulary(causes, effects, cfg.phrases))
  }

  // ---------------------------------------------------------------- list.remove

  predicate NoDuplicates(s: seq<string>) {
    forall i, j :: 0 <= i < j < |s| ==> s[i] != s[j]
  }

  /** The index of the first occurrence of `x` in `s`. */
  function FirstIndex(s: seq<string>, x: string): (i: nat)
    requires x in s
    ensures i < |s| && s[i] == x && x !in s[..i]
  {
    if s[0] == x then 0 else 1 + FirstIndex(s[1..], x)
  }

  /** Python's `list.remove(x)` on a copy, guarded by `x in list`: drop the first occurrence if there is one. */
  function RemoveFirst(s: seq<string>, x: string): (r: seq<string>)
    ensures |r| == if x in s then |s| - 1 else |s|
  {
    if s == [] then []
    else
      assert s == [s[0]] + s[1..];
      if s[0] == x then s[1..] else [s[0]] + RemoveFirst(s[1..], x)
  }

  /** Without `x` the list is unchanged; with it, exactly the element at its first index is dropped. */
  lemma {:induction false} RemoveFirstSplit(s: seq<string>, x: string)
    ensures x !in s ==> RemoveFirst(s, x) == s
    ensures x in s ==> RemoveFirst(s, x) == s[..FirstIndex(s, x)] + s[FirstIndex(s, x) + 1..]
  {
    if s != [] && s[0] != x {
      assert s == [s[0]] + s[1..];
      RemoveFirstSplit(s[1..], x);
      if x in s {
        var i := FirstIndex(s[1..], x);
        assert FirstIndex(s, x) == 1 + i;
        assert s[..1 + i] == [s[0]] + s[1..][..i];
        assert s[2 + i..] == s[1..][i + 1..];
      }
    }
  }

  /** Removing never brings in a new element. */
  lemma RemoveFirstSubset(s: seq<string>, x: string)
    ensures forall y :: y in RemoveFirst(s, x) ==> y in s
  {
    RemoveFirstSplit(s, x);
    if x in s {
      var i := FirstIndex(s, x);
      assert s == s[..i] + [s[i]] + s[i + 1..];
    }
  }

  /** With no repeated entries, removing the first occurrence removes every occurrence. */
  lemma RemoveFirstExcludes(s: seq<string>, x: string)
    ensures NoDuplicates(s) ==> x !in RemoveFirst(s, x)
  {
    if x in s && NoDuplicates(s) {
      RemoveFirstSplit(s, x);
      var i := FirstIndex(s, x);
      assert x !in s[i + 1..] by {
        forall k | i + 1 <= k < |s| ensures s[k] != x {
          assert s[i] != s[k];
        }
      }
    }
  }

  // ---------------------------------------------------------------- generate

  /** Python truthiness of an optional string argument: None and "" both count as not given. */
  predicate Given(arg: Option<string>) {
    arg.Some? && arg.value != ""
  }

  /** The effect candidates once the chosen cause has been taken out (bot.py:147-151). */
  function EffectPool(v: Vocabulary, cause: string): seq<string> {
    RemoveFirst(v.effects, cause)
  }

  /** How many effect candidates remain once `cause` has been taken out. */
  function PoolSize(v: Vocabulary, cause: string): (n: nat)
    ensures n == |EffectPool(v, cause)|
  {
    if cause in v.effects then |v.effects| - 1 else |v.effects|
  }

  /** The draws stand for randrange(0, len(list)): each lies inside its list whenever the list is non-empty. */
  predicate Fits(v: Vocabulary, cause: Option<string>, effect: Option<string>, d: Draw) {
    && (!Given(cause) && |v.causes| > 0 ==> d.cause < |v.causes|)
    && (!Given(effect) && (Given(cause) || d.cause < |v.causes|) ==>
          var c := if Given(cause) then cause.value else v.causes[d.cause].text;
          PoolSize(v, c) > 0 ==> d.effect < PoolSize(v, c))
  }

  /**
    The cause and its number (bot.py:141-145). An explicit cause keeps the
    `singular` argument. Otherwise a pair is drawn from a copy of `causes`;
    the guard `effect in causes` compares a string with (text, flag) pairs,
    which is never true, so the copy keeps every entry and the effect plays
    no part in the choice.
  */
  function PickCause(v: Vocabulary, cause: Option<string>, singular: bool, d: Draw): (r: Result<Cause>)
    requires !Given(cause) && |v.causes| > 0 ==> d.cause < |v.causes|
    ensures Given(cause) ==> r == Ok(Cause(cause.value, singular))
    ensures !Given(cause) ==> (r.Ok? <==> |v.causes| > 0)
    ensures !Given(cause) && r.Ok? ==> r.value in v.causes
    ensures !Given(cause) && r.Ok? ==> r.value == v.causes[d.cause]
    ensures r.Err? ==> r.error == EmptyRange
  {
    if Given(cause) then Ok(Cause(cause.value, singular))
    else if |v.causes| == 0 then Err(EmptyRange)
    else Ok(v.causes[d.cause])
  }

  /** The effect (bot.py:146-152): the argument if given, else a draw from the effects without the cause. */
  function PickEffect(v: Vocabulary, cause: string, effect: Option<string>, d: Draw): (r: Result<string>)
    requires !Given(effect) && PoolSize(v, cause) > 0 ==> d.effect < PoolSize(v, cause)
    ensures Given(effect) ==> r == Ok(effect.value)
    ensures !Given(effect) ==> (r.Ok? <==> |EffectPool(v, cause)| > 0)
    ensures !Given(effect) && r.Ok? ==> r.value in EffectPool(v, cause)
    ensures !Given(effect) && r.Ok? ==> r.value == EffectPool(v, cause)[d.effect]
    ensures !Given(effect) && r.Ok? ==> r.value in v.effects
    ensures !Given(effect) && r.Ok? && NoDuplicates(v.effects) ==> r.value != cause
    ensures r.Err? ==> r.error == EmptyRange
  {
    if Given(effect) then Ok(effect.value)
    else
      var pool := EffectPool(v, cause);
      if |pool| == 0 then Err(EmptyRange)
      else
        assert pool[d.effect] in pool;
        RemoveFirstSubset(v.effects, cause);
        RemoveFirstExcludes(v.effects, cause);
        Ok(pool[d.effect])
  }

  /** Both choices of generate, before formatting. */
  function Compose(v: Vocabulary, cause: Option<string>, effect: Option<string>, singular: bool, d: Draw): (r: Result<Sentence>)
    requires Fits(v, cause, effect, d)
    ensures r.Err? ==> r.error == EmptyRange
    ensures !Given(cause) && |v.causes| == 0 ==> r.Err?
    ensures r.Ok? && Given(cause) ==> r.value.cause == cause.value && r.value.singular == singular
    ensures r.Ok? && !Given(cause) ==> Cause(r.value.cause, r.value.singular) in v.causes
    ensures r.Ok? && !Given(cause) ==> Cause(r.value.cause, r.value.singular) == v.causes[d.cause]
    ensures r.Ok? && Given(effect) ==> r.value.effect == effect.value
    ensures r.Ok? && !Given(effect) ==> r.value.effect in EffectPool(v, r.value.cause)
    ensures r.Ok? && !Given(effect) ==> r.value.effect in v.effects
    ensures r.Ok? && !Given(effect) && NoDuplicates(v.effects) ==> r.value.effect != r.value.cause
    ensures Given(effect) ==> (r.Ok? <==> Given(cause) || |v.causes| > 0)
    ensures !Given(effect) && (Given(cause) || |v.causes| > 0) ==>
      (r.Ok? <==> PoolSize(v, if Given(cause) then cause.value else v.causes[d.cause].text) > 0)
  {
    match PickCause(v, cause, singular, d)
    case Err(e) => Err(e)
    case Ok(c) =>
      match PickEffect(v, c.text, effect, d)
      case Err(e) => Err(e)
      case Ok(e) => Ok(Sentence(c.text, c.singular, e))
  }

  /** The word "cause" stands at position `i` of `t`. */
  predicate CauseAt(t: string, i: int) {
    0 <= i && i + 5 <= |t| && t[i..i + 5] == "cause"
  }

  /** `"{} cause{} {}".format(cause, 's' if singular else '', effect)` */
  function Render(s: Sentence): (t: string)
    ensures |t| == |s.cause| + (if s.singular then 8 else 7) + |s.effect|
    ensures CauseAt(t, |s.cause| + 1)
    ensures t[..|s.cause|] == s.cause
    ensures t[|s.cause|..|t| - |s.effect|] == if s.singular then " causes " else " cause "
    ensures t[|t| - |s.effect|..] == s.effect
  {
    var verb := " cause" + (if s.singular then "s" else "") + " ";
    var t := s.cause + verb + s.effect;
    assert t[|s.cause|..|t| - |s.effect|] == verb;
    assert t[|s.cause| + 1..|s.cause| + 6] == verb[1..6];
    t
  }

  /** The verb carries the plural "s" exactly when the sentence is singular. */
  lemma VerbMarksNumber(s: Sentence)
    ensures Render(s)[|s.cause| + 6] == 's' <==> s.singular
  {
    var t := Render(s);
    assert t[|s.cause| + 6] == t[|s.cause|..|t| - |s.effect|][6];
  }

  /** The word "cause" occurs in `t`. */
  ghost predicate MentionsCause(t: string) {
    exists i :: CauseAt(t, i)
  }

  /** WindfarmBot.generate. */
  function Generate(v: Vocabulary, cause: Option<string>, effect: Option<string>, singular: bool, d: Draw): (r: Result<string>)
    requires Fits(v, cause, effect, d)
    ensures r.Ok? <==> Compose(v, cause, effect, singular, d).Ok?
    ensures r.Err? ==> r.error == EmptyRange
    ensures r.Ok? ==> r.value == Render(Compose(v, cause, effect, singular, d).value)
    ensures r.Ok? ==> MentionsCause(r.value)
  {
    match Compose(v, cause, effect, singular, d)
    case Err(e) => Err(e)
    case Ok(s) =>
      Ok(Render(s))
  }

  /** An explicit cause and effect are used as given, with the `singular` argument choosing the verb. */
  lemma ExplicitArguments(v: Vocabulary, cause: string, effect: string, singular: bool, d: Draw)
    requires cause != "" && effect != ""
    ensures Generate(v, Some(cause), Some(effect), singular, d) ==
      Ok(cause + (if singular then " causes " else " cause ") + effect)
  {
    var t := Render(Sentence(cause, singular, effect));
    assert t == t[..|cause|] + t[|cause|..|t| - |effect|] + t[|t| - |effect|..];
  }

  /**
    With neither argument given, generate formats the drawn pair (with its own
    number) and the drawn effect from the pool without the pair's text.
  */
  lemma DrawnArguments(v: Vocabulary, d: Draw)
    requires Fits(v, None, None, d) && d.cause < |v.causes|
    requires PoolSize(v, v.causes[d.cause].text) > 0
    ensures var c := v.causes[d.cause];
      Generate(v, None, None, true, d) ==
        Ok(c.text + (if c.singular then " causes " else " cause ") + EffectPool(v, c.text)[d.effect])
  {
    var c := v.causes[d.cause];
    var e := EffectPool(v, c.text)[d.effect];
    assert Compose(v, None, None, true, d) == Ok(Sentence(c.text, c.singular, e));
    var t := Render(Sentence(c.text, c.singular, e));
    assert t == t[..|c.text|] + t[|c.text|..|t| - |e|] + t[|t| - |e|..];
  }

  /**
    When an effect is given and the cause is not, the cause is drawn from the
    full list: no entry is excluded, so the cause can equal the effect.
  */
  lemma CauseNotExcluded(v: Vocabulary, effect: string, d: Draw)
    requires effect != "" && d.cause < |v.causes|
    ensures Compose(v, None, Some(effect), true, d) ==
      Ok(Sentence(v.causes[d.cause].text, v.causes[d.cause].singular, effect))
  {
  }

  /** The plural sentence "wind farms" / "wind farms", formatted. */
  lemma SelfCausationText()
    ensures Render(Sentence("wind farms", false, "wind farms")) == "wind farms cause wind farms"
  {
    assert "wind farms" + " cause" + "" + " " + "wind farms" == "wind farms cause wind farms";
  }

  /** A bot whose only cause is "wind farms" answers a search for "wind farms" with "wind farms cause wind farms". */
  lemma SelfCausationWithGivenEffect()
    ensures Generate(Vocabulary([Cause("wind farms", false)], ["wind farms"], []),
                     None, Some("wind farms"), true, Draw(0, 0)) == Ok("wind farms cause wind farms")
  {
    var v := Vocabulary([Cause("wind farms", false)], ["wind farms"], []);
    SelfCausationText();
    assert Compose(v, None, Some("wind farms"), true, Draw(0, 0)) == Ok(Sentence("wind farms", false, "wind farms"));
  }

  /** With one configured cause and default effects, the only effect is that cause's text. */
  lemma SingleCauseVocabulary(cfg: Config)
    requires Construct(cfg).Ok? && |cfg.singular| + |cfg.plural| == 1 && DefaultEffects(cfg.effects)
    ensures var v := Construct(cfg).value; |v.causes| == 1 && v.effects == [v.causes[0].text]
  {
    var v := Construct(cfg).value;
    if |cfg.singular| == 1 {
      assert v.causes[0] == Cause(cfg.singular[0], true);
      assert cfg.singular + cfg.plural == [cfg.singular[0]];
    } else {
      assert v.causes[0] == Cause(cfg.plural[0], false);
      assert cfg.singular + cfg.plural == [cfg.plural[0]];
    }
  }

  /** One configured cause and no effects: generate() has nothing left to draw and raises. */
  lemma SingleCauseCannotGenerate(cfg: Config, d: Draw)
    requires Construct(cfg).Ok? && |cfg.singular| + |cfg.plural| == 1 && DefaultEffects(cfg.effects)
    requires Fits(Construct(cfg).value, None, None, d)
    ensures Generate(Construct(cfg).value, None, None, true, d) == Err(EmptyRange)
  {
    var v := Construct(cfg).value;
    SingleCauseVocabulary(cfg);
    var c := v.causes[0];
    assert PickCause(v, None, true, d) == Ok(c);
    assert PoolSize(v, c.text) == 0;
    assert PickEffect(v, c.text, None, d) == Err(EmptyRange);
  }

  /** The configuration of the scenario below: singular "tin-foil hats", plural "wind farms", no effects. */
  function WindFarmsConfig(keys: ApiKeys): Config {
    var off := Task(false, Every(0), 0);
    Config(keys, ["tin-foil hats"], ["wind farms"], None, [], off, off, off)
  }

  /** The lists the constructor builds from that configuration. */
  function WindFarmsVocabulary(): Vocabulary {
    Vocabulary([Cause("tin-foil hats", true), Cause("wind farms", false)], ["tin-foil hats", "wind farms"], [])
  }

  /** The constructor's lists for that configuration: singular entries first, effects defaulted to the cause texts. */
  lemma WindFarmsConstruct(keys: ApiKeys)
    requires KeysConfigured(keys)
    ensures Construct(WindFarmsConfig(keys)) == Ok(WindFarmsVocabulary())
  {
    var cfg := WindFarmsConfig(keys);
    assert cfg.singular == ["tin-foil hats"] && cfg.plural == ["wind farms"];
    assert Construct(cfg).Ok?;
    var v := Construct(cfg).value;
    assert v.causes == [Cause("tin-foil hats", true), Cause("wind farms", false)];
    assert v.effects == ["tin-foil hats"] + ["wind farms"];
    assert v.phrases == [];
    assert ["tin-foil hats"] + ["wind farms"] == ["tin-foil hats", "wind farms"];
    assert v == WindFarmsVocabulary();
  }

  /** Taking "wind farms" out of that bot's effects leaves only "tin-foil hats". */
  lemma WindFarmsPool()
    ensures EffectPool(WindFarmsVocabulary(), "wind farms") == ["tin-foil hats"]
  {
    var effects := WindFarmsVocabulary().effects;
    assert effects[0] != "wind farms";
    assert FirstIndex(effects, "wind farms") == 1;
    RemoveFirstSplit(effects, "wind farms");
  }

  /** The singular sentence "wind farms" / "tin-foil hats", formatted. */
  lemma WindFarmsText()
    ensures Render(Sentence("wind farms", true, "tin-foil hats")) == "wind farms causes tin-foil hats"
  {
    assert "wind farms" + " cause" + "s" + " " + "tin-foil hats" == "wind farms causes tin-foil hats";
  }

  /**
    With that configuration generate(cause="wind farms") can only pick
    "tin-foil hats", and the default `singular=True` gives the verb "causes".
  */
  lemma WindFarmsScenario(d: Draw)
    requires Fits(WindFarmsVocabulary(), Some("wind farms"), None, d)
    ensures Generate(WindFarmsVocabulary(), Some("wind farms"), None, true, d)
      == Ok("wind farms causes tin-foil hats")
  {
    var v := WindFarmsVocabulary();
    WindFarmsPool();
    WindFarmsText();
    assert PickEffect(v, "wind farms", None, d) == Ok("tin-foil hats");
    assert Compose(v, Some("wind farms"), None, true, d) == Ok(Sentence("wind farms", true, "tin-foil hats"));
  }
}
