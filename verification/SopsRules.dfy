/**
 The creation rules of `.sops.yaml`: the first rule whose pattern matches a path names the file's recipients. The
 module models how Kubit looks rules up, how it adds a recipient without ever letting it read the protected file,
 and how connecting clusters to an apps repository keeps their folders apart.
 */
module SopsRules {
  import opened Basics
  import SopsFile

  datatype Error = NoProtectedRule | NoAge | BadPattern | NoRecipients | NoMatch

  /** Folder names and the file name; never empty. */
  type Path = seq<string>

  /** The patterns Kubit writes, told apart from any other by `Custom`. */
  datatype Pattern = Protected(name: string) | ClusterFolder(cluster: string) | AnySecret | Custom(text: string)

  /** Recipients as one comma-separated scalar, as a list of such scalars, or as anything else. */
  datatype Age = Inline(rs: seq<string>) | Listed(items: seq<seq<string>>) | Odd

  /** A creation rule; `criteria` says which values of a file it governs are sealed. */
  datatype CreationRule = CreationRule(pattern: Option<Pattern>, age: Option<Age>, criteria: SopsFile.Criteria)

  const NO_CRITERIA := SopsFile.Criteria("", "", "", "", false)

  type Rules = seq<CreationRule>

  /** The regular expression engine on other patterns; `None` means the pattern does not compile. */
  type Engine = (string, Path) -> Option<bool>

  predicate SecretName(name: string) { HasSuffix(name, ".sops.yaml") || HasSuffix(name, ".sops.yml") }

  function Base(p: Path): string { if p == [] then "" else p[|p| - 1] }

  function Match(p: Pattern, path: Path, engine: Engine): Option<bool> {
    match p
    case Protected(name) => Some(Base(path) == name)
    case ClusterFolder(c) => Some(|path| >= 3 && path[0] in {"apps", "infrastructure"} && path[1] == c && SecretName(Base(path)))
    case AnySecret => Some(SecretName(Base(path)))
    case Custom(text) => engine(text, path)
  }

  /** As the editing functions see it: a pattern that does not compile matches nothing. */
  predicate RuleMatches(r: CreationRule, path: Path, engine: Engine) {
    r.pattern.None? || Match(r.pattern.value, path, engine) == Some(true)
  }

  function {:tailrecursion false} Concat(items: seq<seq<string>>): seq<string> {
    if items == [] then [] else items[0] + Concat(items[1..])
  }

  function Recipients(r: CreationRule): seq<string> {
    match r.age
    case Some(Inline(rs)) => rs
    case Some(Listed(items)) => Concat(items)
    case _ => []
  }

  /** The index of the first rule that matches, or the number of rules. */
  function First(rules: Rules, path: Path, engine: Engine): (i: nat)
    ensures i <= |rules|
    ensures i < |rules| ==> RuleMatches(rules[i], path, engine)
    ensures forall k | 0 <= k < i :: !RuleMatches(rules[k], path, engine)
  {
    if rules == [] then 0
    else if RuleMatches(rules[0], path, engine) then 0
    else 1 + First(rules[1..], path, engine)
  }

  lemma FirstIs(rules: Rules, path: Path, engine: Engine, i: nat)
    requires i < |rules| && RuleMatches(rules[i], path, engine)
    requires forall k | 0 <= k < i :: !RuleMatches(rules[k], path, engine)
    ensures First(rules, path, engine) == i
  {
  }

  predicate Broken(r: CreationRule, path: Path, engine: Engine) {
    r.pattern.Some? && Match(r.pattern.value, path, engine).None?
  }

  /** What a reader of the rules gets for a path: the first match decides, and a broken pattern before it is an error. */
  function RuleForSpec(rules: Rules, path: Path, engine: Engine): Result<SopsFile.Rule, Error> {
    var i := First(rules, path, engine);
    if exists k | 0 <= k < i :: Broken(rules[k], path, engine) then Err(BadPattern)
    else if i == |rules| then Err(NoMatch)
    else if Recipients(rules[i]) == [] then Err(NoRecipients)
    else Ok(SopsFile.Rule(Recipients(rules[i]), rules[i].criteria))
  }

  method RuleFor(rules: Rules, path: Path, engine: Engine) returns (r: Result<SopsFile.Rule, Error>)
    ensures r == RuleForSpec(rules, path, engine)
  {
    for i := 0 to |rules|
      invariant forall k | 0 <= k < i :: !RuleMatches(rules[k], path, engine) && !Broken(rules[k], path, engine)
    {
      var rule := rules[i];
      if rule.pattern.Some? {
        var m := Match(rule.pattern.value, path, engine);
        if m.None? {
          assert Broken(rules[i], path, engine);
          assert First(rules, path, engine) > i;
          return Err(BadPattern);
        }
        if !m.value {
          continue;
        }
      }
      FirstIs(rules, path, engine, i);
      if Recipients(rule) == [] {
        return Err(NoRecipients);
      }
      return Ok(SopsFile.Rule(Recipients(rule), rule.criteria));
    }
    assert First(rules, path, engine) == |rules|;
    r := Err(NoMatch);
  }

  // ---- adding a recipient ----

  /** `addTo`: puts the recipient into the node unless it is there, where the node can hold it. */
  function AddTo(a: Age, rcp: string): Age {
    match a
    case Inline(rs) => if rcp in rs then a else Inline(rs + [rcp])
    case Listed(items) => if exists i | 0 <= i < |items| :: rcp in items[i] then a else Listed(items + [[rcp]])
    case Odd => a
  }

  function GiveTo(r: CreationRule, rcp: string): CreationRule {
    if r.age.Some? then r.(age := Some(AddTo(r.age.value, rcp))) else r
  }

  lemma {:induction false} ConcatAppend(items: seq<seq<string>>, last: seq<string>)
    ensures Concat(items + [last]) == Concat(items) + last
    decreases |items|
  {
    if items == [] {
      assert [last][1..] == [];
    } else {
      assert (items + [last])[1..] == items[1..] + [last];
      ConcatAppend(items[1..], last);
    }
  }

  lemma {:induction false} ConcatHolds(items: seq<seq<string>>, x: string)
    ensures x in Concat(items) <==> exists i | 0 <= i < |items| :: x in items[i]
    decreases |items|
  {
    if items != [] {
      ConcatHolds(items[1..], x);
      assert forall i | 1 <= i < |items| :: items[i] == items[1..][i - 1];
    }
  }

  /** A recipient that is gained comes last, and one that is there does not come a second time. */
  lemma GivesOnce(r: CreationRule, rcp: string)
    ensures rcp in Recipients(r) || r.age.None? || r.age.value.Odd? ==> GiveTo(r, rcp) == r
    ensures rcp !in Recipients(r) && r.age.Some? && !r.age.value.Odd? ==> Recipients(GiveTo(r, rcp)) == Recipients(r) + [rcp]
  {
    if r.age.Some? && r.age.value.Listed? {
      ConcatAppend(r.age.value.items, [rcp]);
      ConcatHolds(r.age.value.items, rcp);
    }
  }

  /** Exactly the recipient is gained, where the node is a scalar or a list. */
  lemma GiveToGives(r: CreationRule, rcp: string)
    ensures GiveTo(r, rcp).pattern == r.pattern && GiveTo(r, rcp).criteria == r.criteria
    ensures forall x :: x in Recipients(GiveTo(r, rcp)) <==>
              x in Recipients(r) || (x == rcp && r.age.Some? && !r.age.value.Odd?)
  {
    if r.age.Some? && r.age.value.Listed? {
      ConcatAppend(r.age.value.items, [rcp]);
      ConcatHolds(r.age.value.items, rcp);
    }
  }

  /** Whether the rule that governs the protected file would also cover a sample. */
  predicate Splits(rules: Rules, name: string, samples: seq<Path>, engine: Engine) {
    var guard := First(rules, [name], engine);
    guard < |rules| && exists i | 0 <= i < |samples| :: RuleMatches(rules[guard], samples[i], engine)
  }

  /** The guard rule is split first in that case; the new rule takes over the recipients and nothing else. */
  function Guarded(rules: Rules, name: string, samples: seq<Path>, engine: Engine): Result<Rules, Error> {
    var guard := First(rules, [name], engine);
    if guard == |rules| then Err(NoProtectedRule)
    else if Splits(rules, name, samples, engine) then
      if rules[guard].age.None? then Err(NoAge)
      else Ok(rules[..guard] + [CreationRule(Some(Protected(name)), rules[guard].age, NO_CRITERIA)] + rules[guard..])
    else Ok(rules)
  }

  /** One sample: the rule that governs it gains the recipient, unless it is the guard. */
  function GiveSample(rules: Rules, guard: nat, rcp: string, sample: Path, engine: Engine): Rules {
    var i := First(rules, sample, engine);
    if i == |rules| || i == guard then rules else rules[i := GiveTo(rules[i], rcp)]
  }

  function GiveSamples(rules: Rules, guard: nat, rcp: string, samples: seq<Path>, engine: Engine): Rules {
    if samples == [] then rules
    else GiveSample(GiveSamples(rules, guard, rcp, samples[..|samples| - 1], engine), guard, rcp, samples[|samples| - 1], engine)
  }

  function AddRecipientSpec(rules: Rules, rcp: string, name: string, samples: seq<Path>, engine: Engine): Result<Rules, Error> {
    match Guarded(rules, name, samples, engine)
    case Err(e) => Err(e)
    case Ok(split) => Ok(GiveSamples(split, First(rules, [name], engine), rcp, samples, engine))
  }

  method AddRecipient(rules: Rules, rcp: string, name: string, samples: seq<Path>, engine: Engine) returns (r: Result<Rules, Error>)
    ensures r == AddRecipientSpec(rules, rcp, name, samples, engine)
  {
    var guard := First(rules, [name], engine);
    if guard == |rules| {
      return Err(NoProtectedRule);
    }
    var edited := rules;
    if exists i | 0 <= i < |samples| :: RuleMatches(rules[guard], samples[i], engine) {
      if rules[guard].age.None? {
        return Err(NoAge);
      }
      edited := rules[..guard] + [CreationRule(Some(Protected(name)), rules[guard].age, NO_CRITERIA)] + rules[guard..];
    }
    ghost var split := edited;
    for k := 0 to |samples|
      invariant edited == GiveSamples(split, guard, rcp, samples[..k], engine)
    {
      assert samples[..k + 1][..k] == samples[..k];
      var i := First(edited, samples[k], engine);
      if i == |edited| || i == guard {
        continue;
      }
      edited := edited[i := GiveTo(edited[i], rcp)];
    }
    assert samples[..|samples|] == samples;
    r := Ok(edited);
  }

  /** Giving changes no pattern, never the guard, and no rule's recipients except by the one added. */
  ghost predicate OnlyGains(before: Rules, after: Rules, guard: nat, rcp: string) {
    && |after| == |before|
    && (forall i | 0 <= i < |before| :: after[i].pattern == before[i].pattern && after[i].criteria == before[i].criteria)
    && (forall i | 0 <= i < |before| :: (after[i].age.None? <==> before[i].age.None?))
    && (forall i | 0 <= i < |before| :: after[i].age.Some? ==> (after[i].age.value.Odd? <==> before[i].age.value.Odd?))
    && (forall i, x | 0 <= i < |before| && x in Recipients(before[i]) :: x in Recipients(after[i]))
    && (forall i, x | 0 <= i < |before| && x in Recipients(after[i]) :: x in Recipients(before[i]) || x == rcp)
    && (guard < |before| ==> after[guard] == before[guard])
  }

  lemma SameFirst(before: Rules, after: Rules, path: Path, engine: Engine)
    requires |after| == |before| && forall i | 0 <= i < |before| :: after[i].pattern == before[i].pattern
    ensures First(after, path, engine) == First(before, path, engine)
  {
    var i := First(before, path, engine);
    assert forall k | 0 <= k < |before| :: RuleMatches(after[k], path, engine) == RuleMatches(before[k], path, engine);
    if i < |before| {
      FirstIs(after, path, engine, i);
    }
  }

  lemma GiveSampleGains(rules: Rules, guard: nat, rcp: string, sample: Path, engine: Engine)
    ensures OnlyGains(rules, GiveSample(rules, guard, rcp, sample, engine), guard, rcp)
  {
    var i := First(rules, sample, engine);
    if i < |rules| {
      GiveToGives(rules[i], rcp);
    }
  }

  lemma {:induction false} GiveSamplesGains(rules: Rules, guard: nat, rcp: string, samples: seq<Path>, engine: Engine)
    ensures OnlyGains(rules, GiveSamples(rules, guard, rcp, samples, engine), guard, rcp)
    decreases |samples|
  {
    if samples != [] {
      GiveSamplesGains(rules, guard, rcp, samples[..|samples| - 1], engine);
      GiveSampleGains(GiveSamples(rules, guard, rcp, samples[..|samples| - 1], engine), guard, rcp, samples[|samples| - 1], engine);
    }
  }

  /** A rule that can take recipients. */
  predicate HasList(r: CreationRule) { r.age.Some? && !r.age.value.Odd? }

  lemma LastSampleGains(rules: Rules, guard: nat, rcp: string, sample: Path, engine: Engine)
    ensures var i, after := First(rules, sample, engine), GiveSample(rules, guard, rcp, sample, engine);
            i < |rules| && i != guard && HasList(rules[i]) ==> |after| == |rules| && rcp in Recipients(after[i])
  {
    var i := First(rules, sample, engine);
    if i < |rules| {
      GiveToGives(rules[i], rcp);
    }
  }

  /** A sample's rule that can hold a recipient holds this one in the end. */
  lemma {:induction false} SampleGains(rules: Rules, guard: nat, rcp: string, samples: seq<Path>, engine: Engine, k: nat)
    requires k < |samples|
    ensures var after, i := GiveSamples(rules, guard, rcp, samples, engine), First(rules, samples[k], engine);
            i < |rules| && i != guard && HasList(rules[i]) ==> |after| == |rules| && rcp in Recipients(after[i])
    decreases |samples|
  {
    var past, last := samples[..|samples| - 1], samples[|samples| - 1];
    var mid := GiveSamples(rules, guard, rcp, past, engine);
    GiveSamplesGains(rules, guard, rcp, past, engine);
    if k < |past| {
      GiveSampleGains(mid, guard, rcp, last, engine);
      SampleGains(rules, guard, rcp, past, engine, k);
    } else {
      SameFirst(rules, mid, last, engine);
      LastSampleGains(mid, guard, rcp, last, engine);
    }
  }

  /** Splitting the guard keeps every answer for the protected file. */
  lemma SplitKeepsProtected(rules: Rules, name: string, samples: seq<Path>, engine: Engine)
    requires Guarded(rules, name, samples, engine).Ok?
    ensures var split, guard := Guarded(rules, name, samples, engine).value, First(rules, [name], engine);
            && guard < |rules| <= |split| && First(split, [name], engine) == guard
            && split[guard].age == rules[guard].age
            && split[guard].criteria == (if Splits(rules, name, samples, engine) then NO_CRITERIA else rules[guard].criteria)
            && forall k | 0 <= k < guard :: split[k] == rules[k]
  {
    FirstIs(Guarded(rules, name, samples, engine).value, [name], engine, First(rules, [name], engine));
  }

  /** Two lists whose first match is at the same place, after the same broken patterns, with the same recipients. */
  lemma LookupAlike(a: Rules, b: Rules, path: Path, engine: Engine)
    requires var i := First(a, path, engine);
             && i == First(b, path, engine) && i < |a| && i < |b| && Recipients(a[i]) == Recipients(b[i])
             && forall k | 0 <= k < i :: Broken(a[k], path, engine) == Broken(b[k], path, engine)
    ensures var i, x, y := First(a, path, engine), RuleForSpec(a, path, engine), RuleForSpec(b, path, engine);
            && (x.Err? ==> y == x)
            && (x.Ok? ==> y.Ok? && x.value == SopsFile.Rule(Recipients(a[i]), a[i].criteria) && y.value == SopsFile.Rule(Recipients(a[i]), b[i].criteria))
  {
  }

  /**
   Whatever is added, the recipients of the protected file stay the same, errors included. What of it is sealed stays the
   same as well, unless its rule is split and named criteria, which the new rule drops.
   */
  lemma ProtectedUnchanged(rules: Rules, rcp: string, name: string, samples: seq<Path>, engine: Engine)
    requires AddRecipientSpec(rules, rcp, name, samples, engine).Ok?
    ensures var before := RuleForSpec(rules, [name], engine);
            var after := RuleForSpec(AddRecipientSpec(rules, rcp, name, samples, engine).value, [name], engine);
            && (before.Err? ==> after == before)
            && (before.Ok? ==> after.Ok? && after.value.age == before.value.age)
            && (after == before <==> before.Err? || !Splits(rules, name, samples, engine) || before.value.criteria == NO_CRITERIA)
  {
    var split, guard := Guarded(rules, name, samples, engine).value, First(rules, [name], engine);
    var after := GiveSamples(split, guard, rcp, samples, engine);
    SplitKeepsProtected(rules, name, samples, engine);
    GiveSamplesGains(split, guard, rcp, samples, engine);
    SameFirst(split, after, [name], engine);
    assert forall k | 0 <= k < guard :: Broken(after[k], [name], engine) == Broken(rules[k], [name], engine);
    LookupAlike(rules, after, [name], engine);
  }

  /** A split that changes what is sealed: a rule for everything that seals only what it names. */
  lemma SplitDropsCriteria(engine: Engine)
    ensures var rules := [CreationRule(None, Some(Inline(["op"])), NO_CRITERIA.(encryptedRegex := "^data$"))];
            var r := AddRecipientSpec(rules, "flux", "secrets.sops.yaml", [["apps", "db.sops.yaml"]], engine);
            && r.Ok? && RuleForSpec(rules, ["secrets.sops.yaml"], engine) == Ok(SopsFile.Rule(["op"], rules[0].criteria))
            && RuleForSpec(r.value, ["secrets.sops.yaml"], engine) == Ok(SopsFile.Rule(["op"], NO_CRITERIA))
  {
    var rules := [CreationRule(None, Some(Inline(["op"])), NO_CRITERIA.(encryptedRegex := "^data$"))];
    var name, samples := "secrets.sops.yaml", [["apps", "db.sops.yaml"]];
    FirstIs(rules, [name], engine, 0);
    assert RuleMatches(rules[0], samples[0], engine);
    assert Splits(rules, name, samples, engine);
    var r := AddRecipientSpec(rules, "flux", name, samples, engine);
    ProtectedUnchanged(rules, "flux", name, samples, engine);
    var after := GiveSamples(Guarded(rules, name, samples, engine).value, 0, "flux", samples, engine);
    SplitKeepsProtected(rules, name, samples, engine);
    GiveSamplesGains(Guarded(rules, name, samples, engine).value, 0, "flux", samples, engine);
    SameFirst(Guarded(rules, name, samples, engine).value, after, [name], engine);
  }

  /**
   When a sample is readable by the new recipient in the end: when its first rule then is not the protected file's and
   has a recipient list, or is the protected file's and had the recipient already.
   */
  lemma SamplesReadable(rules: Rules, rcp: string, name: string, samples: seq<Path>, engine: Engine, k: nat)
    requires AddRecipientSpec(rules, rcp, name, samples, engine).Ok? && k < |samples|
    ensures var after := AddRecipientSpec(rules, rcp, name, samples, engine).value;
            var i, guard := First(after, samples[k], engine), First(after, [name], engine);
            && guard == First(rules, [name], engine) < |rules| && guard < |after|
            && (i < |after| ==>
                 (rcp in Recipients(after[i]) <==>
                   if i == guard then rcp in Recipients(rules[guard]) else HasList(after[i])))
  {
    var split, guard := Guarded(rules, name, samples, engine).value, First(rules, [name], engine);
    var after := GiveSamples(split, guard, rcp, samples, engine);
    SplitKeepsProtected(rules, name, samples, engine);
    GiveSamplesGains(split, guard, rcp, samples, engine);
    SameFirst(split, after, [name], engine);
    SameFirst(split, after, samples[k], engine);
    SampleGains(split, guard, rcp, samples, engine, k);
  }

  /** For a file of any other name nobody loses access, and nobody but the new recipient gains it. */
  lemma OthersOnlyGain(rules: Rules, rcp: string, name: string, samples: seq<Path>, engine: Engine, path: Path, x: string)
    requires AddRecipientSpec(rules, rcp, name, samples, engine).Ok? && Base(path) != name
    requires First(rules, path, engine) < |rules|
    ensures var after := AddRecipientSpec(rules, rcp, name, samples, engine).value;
            var i, j := First(rules, path, engine), First(after, path, engine);
            && j < |after| && after[j].criteria == rules[i].criteria
            && (x in Recipients(rules[i]) ==> x in Recipients(after[j]))
            && (x in Recipients(after[j]) ==> x in Recipients(rules[i]) || x == rcp)
  {
    var split, guard := Guarded(rules, name, samples, engine).value, First(rules, [name], engine);
    SplitKeepsOthers(rules, name, samples, engine, path);
    GiveSamplesGains(split, guard, rcp, samples, engine);
    SameFirst(split, GiveSamples(split, guard, rcp, samples, engine), path, engine);
  }

  lemma SplitKeepsOthers(rules: Rules, name: string, samples: seq<Path>, engine: Engine, path: Path)
    requires Guarded(rules, name, samples, engine).Ok? && Base(path) != name && First(rules, path, engine) < |rules|
    ensures var split := Guarded(rules, name, samples, engine).value;
            First(split, path, engine) < |split| && split[First(split, path, engine)] == rules[First(rules, path, engine)]
  {
    var split, guard, i := Guarded(rules, name, samples, engine).value, First(rules, [name], engine), First(rules, path, engine);
    var j := if |split| == |rules| || i < guard then i else i + 1;
    FirstIs(split, path, engine, j);
  }

  // ---- connecting clusters to an apps repository ----

  function AddClusterRuleSpec(rules: Rules, cluster: string, operators: seq<string>): Rules {
    if HasClusterRule(rules, cluster) then rules
    else
      var at := CatchAllAt(rules);
      rules[..at] + [CreationRule(Some(ClusterFolder(cluster)), Some(Inline(operators)), NO_CRITERIA)] + rules[at..]
  }

  predicate HasClusterRule(rules: Rules, cluster: string) {
    exists i | 0 <= i < |rules| :: rules[i].pattern == Some(ClusterFolder(cluster))
  }

  predicate CatchesAll(r: CreationRule) { r.pattern.None? || r.pattern.value.AnySecret? }

  function CatchAllAt(rules: Rules): (i: nat)
    ensures i <= |rules|
    ensures i < |rules| ==> CatchesAll(rules[i])
    ensures forall k | 0 <= k < i :: !CatchesAll(rules[k])
  {
    if rules == [] || CatchesAll(rules[0]) then 0 else 1 + CatchAllAt(rules[1..])
  }

  method AddClusterRule(rules: Rules, cluster: string, operators: seq<string>) returns (r: Rules)
    ensures r == AddClusterRuleSpec(rules, cluster, operators)
  {
    var at := |rules|;
    for i := 0 to |rules|
      invariant forall k | 0 <= k < i :: rules[k].pattern != Some(ClusterFolder(cluster))
      invariant 0 <= at <= |rules| && (at == |rules| || at < i)
      invariant at < |rules| ==> CatchesAll(rules[at])
      invariant forall k | 0 <= k < (if at < i then at else i) :: !CatchesAll(rules[k])
    {
      if rules[i].pattern == Some(ClusterFolder(cluster)) {
        return rules;
      }
      if CatchesAll(rules[i]) && i < at {
        at := i;
      }
    }
    r := rules[..at] + [CreationRule(Some(ClusterFolder(cluster)), Some(Inline(operators)), NO_CRITERIA)] + rules[at..];
  }

  const SECRETS_FILE := "secrets.sops.yaml"

  datatype Connection = Connection(cluster: string, operators: seq<string>, flux: string)

  /** The configuration a new apps repository starts with. */
  function AppsConfig(operators: seq<string>): Rules {
    [CreationRule(Some(Protected(SECRETS_FILE)), Some(Inline(operators)), NO_CRITERIA), CreationRule(Some(AnySecret), Some(Inline(operators)), NO_CRITERIA)]
  }

  function Samples(cluster: string): seq<Path> {
    [["apps", cluster, "apps", "example.sops.yaml"], ["infrastructure", cluster, "apps", "example.sops.yaml"]]
  }

  /** The rule edits of one connection, in their order; `config` is the file if it exists. */
  function Connect(config: Option<Rules>, c: Connection, engine: Engine): Result<Rules, Error> {
    var rules := if config.Some? then config.value else AppsConfig(c.operators);
    AddRecipientSpec(AddClusterRuleSpec(rules, c.cluster, c.operators), c.flux, SECRETS_FILE, Samples(c.cluster), engine)
  }

  function ConnectAll(history: seq<Connection>, engine: Engine): Result<Option<Rules>, Error> {
    if history == [] then Ok(None)
    else match ConnectAll(history[..|history| - 1], engine)
         case Err(e) => Err(e)
         case Ok(config) =>
           match Connect(config, history[|history| - 1], engine) case Err(e) => Err(e) case Ok(rules) => Ok(Some(rules))
  }

  /** One rule for the protected file, one per cluster, one for everything else. */
  ghost predicate Shaped(rules: Rules, operators: seq<string>) {
    && |rules| >= 2
    && rules[0] == CreationRule(Some(Protected(SECRETS_FILE)), Some(Inline(operators)), NO_CRITERIA)
    && rules[|rules| - 1] == CreationRule(Some(AnySecret), Some(Inline(operators)), NO_CRITERIA)
    && (forall i | 0 < i < |rules| - 1 ::
          rules[i].pattern.Some? && rules[i].pattern.value.ClusterFolder? && rules[i].age.Some? && rules[i].age.value.Inline?)
    && (forall i, j | 0 < i < j < |rules| - 1 :: rules[i].pattern != rules[j].pattern)
  }

  ghost predicate RuleOfCluster(rules: Rules, cluster: string, i: nat) {
    i < |rules| && rules[i].pattern == Some(ClusterFolder(cluster))
  }

  predicate InFolder(path: Path, cluster: string) {
    |path| >= 3 && path[0] in {"apps", "infrastructure"} && path[1] == cluster && SecretName(Base(path)) && Base(path) != SECRETS_FILE
  }

  /** In such a list a cluster's own rule governs its folder. */
  lemma OwnRuleGoverns(rules: Rules, operators: seq<string>, cluster: string, i: nat, path: Path, engine: Engine)
    requires Shaped(rules, operators) && RuleOfCluster(rules, cluster, i) && InFolder(path, cluster)
    ensures First(rules, path, engine) == i
  {
    FirstIs(rules, path, engine, i);
  }

  lemma RuleAdded(rules: Rules, operators: seq<string>, c: Connection)
    requires Shaped(rules, operators)
    ensures var after := AddClusterRuleSpec(rules, c.cluster, c.operators);
            && Shaped(after, operators) && HasClusterRule(after, c.cluster)
            && (HasClusterRule(rules, c.cluster) ==> after == rules)
            && (!HasClusterRule(rules, c.cluster) ==>
                  after == rules[..|rules| - 1] + [CreationRule(Some(ClusterFolder(c.cluster)), Some(Inline(c.operators)), NO_CRITERIA)] + rules[|rules| - 1..])
  {
    if !HasClusterRule(rules, c.cluster) {
      assert CatchAllAt(rules) == |rules| - 1;
      var after := AddClusterRuleSpec(rules, c.cluster, c.operators);
      assert after[|rules| - 1].pattern == Some(ClusterFolder(c.cluster));
    }
  }

  /** Adding the Flux key touches the cluster's own rule and nothing else. */
  lemma KeyAdded(rules: Rules, operators: seq<string>, c: Connection, i: nat, engine: Engine)
    requires Shaped(rules, operators) && RuleOfCluster(rules, c.cluster, i)
    ensures AddRecipientSpec(rules, c.flux, SECRETS_FILE, Samples(c.cluster), engine) == Ok(rules[i := GiveTo(rules[i], c.flux)])
  {
    SamplesInFolder(c.cluster);
    FirstIs(rules, [SECRETS_FILE], engine, 0);
    assert Guarded(rules, SECRETS_FILE, Samples(c.cluster), engine) == Ok(rules);
    BothSamplesGive(rules, operators, c, i, Samples(c.cluster), engine);
  }

  lemma BothSamplesGive(rules: Rules, operators: seq<string>, c: Connection, i: nat, samples: seq<Path>, engine: Engine)
    requires Shaped(rules, operators) && RuleOfCluster(rules, c.cluster, i)
    requires |samples| == 2 && InFolder(samples[0], c.cluster) && InFolder(samples[1], c.cluster)
    ensures GiveSamples(rules, 0, c.flux, samples, engine) == rules[i := GiveTo(rules[i], c.flux)]
  {
    var once := rules[i := GiveTo(rules[i], c.flux)];
    OwnRuleGoverns(rules, operators, c.cluster, i, samples[0], engine);
    GivingKeepsShape(rules, operators, c.cluster, i, c.flux);
    OwnRuleGoverns(once, operators, c.cluster, i, samples[1], engine);
    assert samples[..1] == [samples[0]] && samples[..1][..0] == [];
    assert GiveSamples(rules, 0, c.flux, [], engine) == rules;
    assert GiveSamples(rules, 0, c.flux, samples[..1], engine) == once;
    assert once[i := GiveTo(once[i], c.flux)] == once;
  }

  lemma SamplesInFolder(cluster: string)
    ensures |Samples(cluster)| == 2 && InFolder(Samples(cluster)[0], cluster) && InFolder(Samples(cluster)[1], cluster)
  {
    var name := "example.sops.yaml";
    assert name[|name| - 10..] == ".sops.yaml";
    assert name[0] != SECRETS_FILE[0];
  }

  /** Whether `x` may read a cluster's folder: an operator of its first connection, or a Flux key of any of its own. */
  ghost predicate MayRead(history: seq<Connection>, cluster: string, x: string) {
    exists i | 0 <= i < |history| && history[i].cluster == cluster ::
      || history[i].flux == x
      || (x in history[i].operators && forall k | 0 <= k < i :: history[k].cluster != cluster)
  }

  ghost predicate Connected(history: seq<Connection>, cluster: string) {
    exists i | 0 <= i < |history| :: history[i].cluster == cluster
  }

  ghost predicate Faithful(history: seq<Connection>, rules: Rules) {
    && history != [] && Shaped(rules, history[0].operators)
    && (forall c :: HasClusterRule(rules, c) <==> Connected(history, c))
    && (forall c: string, i: nat, x: string | RuleOfCluster(rules, c, i) :: x in Recipients(rules[i]) <==> MayRead(history, c, x))
  }

  lemma MayReadStep(history: seq<Connection>, c: Connection, cluster: string, x: string)
    ensures MayRead(history + [c], cluster, x) <==>
              || MayRead(history, cluster, x)
              || (c.cluster == cluster && (c.flux == x || (x in c.operators && !Connected(history, cluster))))
    ensures Connected(history + [c], cluster) <==> Connected(history, cluster) || c.cluster == cluster
  {
    var all, n := history + [c], |history|;
    assert all[n] == c && forall i | 0 <= i < n :: all[i] == history[i];
    if MayRead(history, cluster, x) {
      var i :| 0 <= i < n && history[i].cluster == cluster &&
        (history[i].flux == x || (x in history[i].operators && forall k | 0 <= k < i :: history[k].cluster != cluster));
      assert all[i].cluster == cluster;
    }
    if Connected(history, cluster) {
      var i :| 0 <= i < n && history[i].cluster == cluster;
      assert all[i].cluster == cluster;
    }
  }

  lemma ReadersAfter(history: seq<Connection>, rules: Rules, added: Rules, c: Connection, at: nat)
    requires history != [] ==> Faithful(history, rules)
    requires history == [] ==> rules == AppsConfig(c.operators)
    requires added == AddClusterRuleSpec(rules, c.cluster, c.operators)
    requires Shaped(added, if history == [] then c.operators else history[0].operators)
    requires RuleOfCluster(added, c.cluster, at)
    ensures forall x :: x in Recipients(GiveTo(added[at], c.flux)) <==> MayRead(history + [c], c.cluster, x)
  {
    GiveToGives(added[at], c.flux);
    forall x: string
      ensures x in Recipients(GiveTo(added[at], c.flux)) <==> MayRead(history + [c], c.cluster, x)
    {
      MayReadStep(history, c, c.cluster, x);
      if HasClusterRule(rules, c.cluster) {
        assert RuleOfCluster(rules, c.cluster, at);
      } else {
        assert !Connected(history, c.cluster);
        assert added[at] == CreationRule(Some(ClusterFolder(c.cluster)), Some(Inline(c.operators)), NO_CRITERIA);
      }
    }
  }

  /** A cluster other than the one connected keeps its rule where it was. */
  lemma OtherRulesStay(rules: Rules, operators: seq<string>, c: Connection, d: string, i: nat)
    requires Shaped(rules, operators) && d != c.cluster
    ensures var added := AddClusterRuleSpec(rules, c.cluster, c.operators);
            RuleOfCluster(added, d, i) <==> RuleOfCluster(rules, d, i)
    ensures RuleOfCluster(rules, d, i) ==> AddClusterRuleSpec(rules, c.cluster, c.operators)[i] == rules[i]
  {
    RuleAdded(rules, operators, c);
  }

  function BaseRules(history: seq<Connection>, rules: Rules, c: Connection): Rules {
    if history == [] then AppsConfig(c.operators) else rules
  }

  lemma GivingKeepsShape(rules: Rules, operators: seq<string>, cluster: string, at: nat, rcp: string)
    requires Shaped(rules, operators) && RuleOfCluster(rules, cluster, at)
    ensures Shaped(rules[at := GiveTo(rules[at], rcp)], operators)
  {
  }

  lemma AnyReadersAfter(history: seq<Connection>, rules: Rules, added: Rules, c: Connection, at: nat, d: string, i: nat, x: string)
    requires (history != [] ==> Faithful(history, rules)) && (history == [] ==> rules == AppsConfig(c.operators))
    requires added == AddClusterRuleSpec(rules, c.cluster, c.operators)
    requires Shaped(rules, (history + [c])[0].operators) && Shaped(added, (history + [c])[0].operators)
    requires RuleOfCluster(added, c.cluster, at) && RuleOfCluster(added[at := GiveTo(added[at], c.flux)], d, i)
    ensures x in Recipients(added[at := GiveTo(added[at], c.flux)][i]) <==> MayRead(history + [c], d, x)
  {
    if d == c.cluster {
      assert i == at;
      ReadersAfter(history, rules, added, c, at);
    } else {
      MayReadStep(history, c, d, x);
      OtherRulesStay(rules, (history + [c])[0].operators, c, d, i);
    }
  }

  lemma ConnectKeeps(history: seq<Connection>, rules: Rules, c: Connection, engine: Engine)
    requires history != [] ==> Faithful(history, rules)
    ensures var r := Connect(if history == [] then None else Some(rules), c, engine);
            r.Ok? && Faithful(history + [c], r.value)
  {
    var start, all := BaseRules(history, rules, c), history + [c];
    var operators := all[0].operators;
    RuleAdded(start, operators, c);
    var added := AddClusterRuleSpec(start, c.cluster, c.operators);
    var at :| 0 <= at < |added| && added[at].pattern == Some(ClusterFolder(c.cluster));
    KeyAdded(added, operators, c, at, engine);
    var after := added[at := GiveTo(added[at], c.flux)];
    GivingKeepsShape(added, operators, c.cluster, at, c.flux);
    forall d: string
      ensures HasClusterRule(after, d) <==> Connected(all, d)
    {
      MayReadStep(history, c, d, "");
      ClusterRulesAfter(start, operators, c, d, at);
    }
    forall d: string, i: nat, x: string | RuleOfCluster(after, d, i)
      ensures x in Recipients(after[i]) <==> MayRead(all, d, x)
    {
      AnyReadersAfter(history, start, added, c, at, d, i, x);
    }
  }

  lemma ClusterRulesAfter(rules: Rules, operators: seq<string>, c: Connection, d: string, at: nat)
    requires Shaped(rules, operators) && RuleOfCluster(AddClusterRuleSpec(rules, c.cluster, c.operators), c.cluster, at)
    ensures var added := AddClusterRuleSpec(rules, c.cluster, c.operators);
            HasClusterRule(added[at := GiveTo(added[at], c.flux)], d) <==> HasClusterRule(rules, d) || d == c.cluster
  {
    var added := AddClusterRuleSpec(rules, c.cluster, c.operators);
    var after := added[at := GiveTo(added[at], c.flux)];
    assert after[at].pattern == Some(ClusterFolder(c.cluster));
    if d != c.cluster {
      if i :| 0 <= i < |rules| && rules[i].pattern == Some(ClusterFolder(d)) {
        OtherRulesStay(rules, operators, c, d, i);
        assert after[i].pattern == Some(ClusterFolder(d));
      }
      if i :| 0 <= i < |after| && after[i].pattern == Some(ClusterFolder(d)) {
        OtherRulesStay(rules, operators, c, d, i);
      }
    }
  }

  lemma ConnectAllStep(history: seq<Connection>, c: Connection, engine: Engine)
    ensures ConnectAll(history + [c], engine) ==
              match ConnectAll(history, engine)
              case Err(e) => Err(e)
              case Ok(config) => match Connect(config, c, engine) case Err(e) => Err(e) case Ok(rules) => Ok(Some(rules))
  {
    assert (history + [c])[..|history|] == history;
  }

  ghost predicate FaithfulSoFar(history: seq<Connection>, config: Option<Rules>) {
    if config.None? then history == [] else Faithful(history, config.value)
  }

  lemma ConnectOneMore(history: seq<Connection>, config: Option<Rules>, c: Connection, engine: Engine)
    requires FaithfulSoFar(history, config)
    ensures Connect(config, c, engine).Ok? && FaithfulSoFar(history + [c], Some(Connect(config, c, engine).value))
  {
    ConnectKeeps(history, if config.Some? then config.value else [], c, engine);
  }

  lemma {:induction false} ConnectAllKeeps(history: seq<Connection>, engine: Engine)
    ensures ConnectAll(history, engine).Ok? && FaithfulSoFar(history, ConnectAll(history, engine).value)
    decreases |history|
  {
    if history != [] {
      var past, c := history[..|history| - 1], history[|history| - 1];
      assert past + [c] == history;
      ConnectAllKeeps(past, engine);
      var config := ConnectAll(past, engine).value;
      ConnectOneMore(past, config, c, engine);
      ConnectAllStep(past, c, engine);
    }
  }

  lemma FaithfulSeparates(history: seq<Connection>, engine: Engine, rules: Rules, cluster: string, i: nat, path: Path)
    requires Faithful(history, rules) && RuleOfCluster(rules, cluster, i) && InFolder(path, cluster)
    ensures First(rules, path, engine) == i && First(rules, [SECRETS_FILE], engine) == 0
    ensures RuleForSpec(rules, path, engine) == Ok(SopsFile.Rule(Recipients(rules[i]), rules[i].criteria))
  {
    OwnRuleGoverns(rules, history[0].operators, cluster, i, path, engine);
    FirstIs(rules, [SECRETS_FILE], engine, 0);
    assert HasClusterRule(rules, cluster);
    var k :| 0 <= k < |history| && history[k].cluster == cluster;
    assert MayRead(history, cluster, history[k].flux);
  }

  /**
   After any sequence of connections to a new apps repository, a connected cluster's folder is readable by the
   operators named when it was first connected and by its own Flux keys, and by nobody else; the protected file is
   readable by the very first operators only.
   */
  lemma FoldersStayApart(history: seq<Connection>, engine: Engine, cluster: string, path: Path, x: string) returns (rules: Rules)
    requires Connected(history, cluster) && InFolder(path, cluster)
    ensures ConnectAll(history, engine) == Ok(Some(rules))
    ensures var readers := RuleForSpec(rules, path, engine);
            readers.Ok? && (x in readers.value.age <==> MayRead(history, cluster, x))
    ensures var p := First(rules, [SECRETS_FILE], engine);
            p < |rules| && Recipients(rules[p]) == history[0].operators
  {
    ConnectAllKeeps(history, engine);
    rules := ConnectAll(history, engine).value.value;
    assert HasClusterRule(rules, cluster);
    var i :| 0 <= i < |rules| && rules[i].pattern == Some(ClusterFolder(cluster));
    FaithfulSeparates(history, engine, rules, cluster, i, path);
  }

  // ---- every path ----

  /** The name ends the way encrypted files end. */
  ghost predicate EndsAsSecret(name: string) { exists stem: string :: name == stem + ".sops.yaml" || name == stem + ".sops.yml" }

  lemma SuffixSplits(name: string, suffix: string)
    requires HasSuffix(name, suffix)
    ensures name == name[..|name| - |suffix|] + suffix
  {
  }

  lemma SecretNameEnds(name: string)
    ensures SecretName(name) <==> EndsAsSecret(name)
  {
    if HasSuffix(name, ".sops.yaml") {
      SuffixSplits(name, ".sops.yaml");
    } else if HasSuffix(name, ".sops.yml") {
      SuffixSplits(name, ".sops.yml");
    }
    if stem: string :| name == stem + ".sops.yaml" || name == stem + ".sops.yml" {
      assert name == stem + ".sops.yaml" ==> HasSuffix(name, ".sops.yaml");
      assert name == stem + ".sops.yml" ==> HasSuffix(name, ".sops.yml");
    }
  }

  /** The path lies in the folder of one of the clusters, under `apps` or `infrastructure`. */
  predicate InConnected(history: seq<Connection>, path: Path) {
    |path| >= 3 && (path[0] == "apps" || path[0] == "infrastructure") && exists i :: 0 <= i < |history| && history[i].cluster == path[1]
  }

  /** Every rule between the first and the last is that of a connected cluster. */
  lemma MiddleIsConnected(history: seq<Connection>, rules: Rules, k: nat)
    requires Faithful(history, rules) && 0 < k < |rules| - 1
    ensures rules[k].pattern.Some? && rules[k].pattern.value.ClusterFolder? && Connected(history, rules[k].pattern.value.cluster)
  {
    assert HasClusterRule(rules, rules[k].pattern.value.cluster);
  }

  lemma MiddleMisses(history: seq<Connection>, rules: Rules, path: Path, engine: Engine, k: nat)
    requires Faithful(history, rules) && 0 < k < |rules| - 1 && !(InConnected(history, path) && SecretName(Base(path)))
    ensures !RuleMatches(rules[k], path, engine) && !Broken(rules[k], path, engine)
  {
    MiddleIsConnected(history, rules, k);
  }

  lemma EndsMatch(rules: Rules, operators: seq<string>, path: Path, engine: Engine)
    requires Shaped(rules, operators)
    ensures RuleMatches(rules[0], path, engine) <==> Base(path) == SECRETS_FILE
    ensures RuleMatches(rules[|rules| - 1], path, engine) <==> SecretName(Base(path))
    ensures !Broken(rules[0], path, engine) && !Broken(rules[|rules| - 1], path, engine)
  {
  }

  lemma NoneBeforeLast(history: seq<Connection>, rules: Rules, path: Path, engine: Engine, k: nat)
    requires Faithful(history, rules) && Base(path) != SECRETS_FILE && !(InConnected(history, path) && SecretName(Base(path)))
    requires k < |rules| - 1
    ensures !RuleMatches(rules[k], path, engine)
  {
    if k == 0 {
      EndsMatch(rules, history[0].operators, path, engine);
    } else {
      MiddleMisses(history, rules, path, engine, k);
    }
  }

  lemma OtherSecretsCaught(history: seq<Connection>, rules: Rules, path: Path, engine: Engine)
    requires Faithful(history, rules) && SecretName(Base(path)) && Base(path) != SECRETS_FILE && !InConnected(history, path)
    ensures First(rules, path, engine) == |rules| - 1
  {
    forall k: nat | k < |rules| - 1
      ensures !RuleMatches(rules[k], path, engine)
    {
      NoneBeforeLast(history, rules, path, engine, k);
    }
    EndsMatch(rules, history[0].operators, path, engine);
    FirstIs(rules, path, engine, |rules| - 1);
  }

  lemma ProtectedIsSecret()
    ensures SecretName(SECRETS_FILE)
  {
    assert SECRETS_FILE[|SECRETS_FILE| - 10..] == ".sops.yaml";
  }

  lemma NoneMatches(rules: Rules, path: Path, engine: Engine)
    requires forall k | 0 <= k < |rules| :: !RuleMatches(rules[k], path, engine) && !Broken(rules[k], path, engine)
    ensures RuleForSpec(rules, path, engine) == Err(NoMatch)
  {
    assert First(rules, path, engine) == |rules|;
  }

  lemma PlainFilesUncaught(history: seq<Connection>, rules: Rules, path: Path, engine: Engine)
    requires Faithful(history, rules) && !SecretName(Base(path))
    ensures RuleForSpec(rules, path, engine) == Err(NoMatch)
  {
    ProtectedIsSecret();
    EndsMatch(rules, history[0].operators, path, engine);
    forall k: nat | k < |rules|
      ensures !RuleMatches(rules[k], path, engine) && !Broken(rules[k], path, engine)
    {
      if 0 < k < |rules| - 1 {
        MiddleMisses(history, rules, path, engine, k);
      }
    }
    NoneMatches(rules, path, engine);
  }

  lemma ConnectedIsItsReaders(history: seq<Connection>, rules: Rules, path: Path, engine: Engine)
    requires Faithful(history, rules) && InConnected(history, path) && SecretName(Base(path)) && Base(path) != SECRETS_FILE
    ensures var i := First(rules, path, engine);
            i < |rules| && forall x :: x in Recipients(rules[i]) <==> MayRead(history, path[1], x)
  {
    assert Connected(history, path[1]) && HasClusterRule(rules, path[1]);
    var i :| 0 <= i < |rules| && rules[i].pattern == Some(ClusterFolder(path[1]));
    OwnRuleGoverns(rules, history[0].operators, path[1], i, path, engine);
    assert RuleOfCluster(rules, path[1], i);
  }

  lemma OthersAreOperators(history: seq<Connection>, rules: Rules, path: Path, engine: Engine)
    requires Faithful(history, rules) && SecretName(Base(path)) && (Base(path) == SECRETS_FILE || !InConnected(history, path))
    ensures var i := First(rules, path, engine); i < |rules| && Recipients(rules[i]) == history[0].operators
  {
    if Base(path) == SECRETS_FILE {
      EndsMatch(rules, history[0].operators, path, engine);
      FirstIs(rules, path, engine, 0);
    } else {
      OtherSecretsCaught(history, rules, path, engine);
    }
  }

  /**
   Who may read what after any sequence of connections, for every path: a file that is not named like an encrypted one has
   no rule; one in the folder of a connected cluster is for that cluster's readers; every other one, and the protected
   file wherever it is, for the very first operators.
   */
  lemma EveryPath(history: seq<Connection>, engine: Engine, path: Path) returns (rules: Rules)
    requires history != []
    ensures ConnectAll(history, engine) == Ok(Some(rules))
    ensures var i := First(rules, path, engine);
            if !EndsAsSecret(Base(path)) then RuleForSpec(rules, path, engine) == Err(NoMatch)
            else i < |rules| &&
                 if InConnected(history, path) && Base(path) != SECRETS_FILE
                 then forall x :: x in Recipients(rules[i]) <==> MayRead(history, path[1], x)
                 else Recipients(rules[i]) == history[0].operators
  {
    ConnectAllKeeps(history, engine);
    rules := ConnectAll(history, engine).value.value;
    SecretNameEnds(Base(path));
    if !SecretName(Base(path)) {
      PlainFilesUncaught(history, rules, path, engine);
    } else if InConnected(history, path) && Base(path) != SECRETS_FILE {
      ConnectedIsItsReaders(history, rules, path, engine);
    } else {
      OthersAreOperators(history, rules, path, engine);
    }
  }
}
