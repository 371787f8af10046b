/** The settings, said of the texts and numbers as they were given. */
module SettingLaws {
  import opened Wrappers
  import opened Text
  import opened TextLaws
  import opened SettingLists
  import opened AppSettings

  // ---------------------------------------------------------------------------------------------
  // List settings
  // ---------------------------------------------------------------------------------------------

  /** What a setting makes of one item. */
  function Mapped(text: CaseMap, setting: ListSetting, item: string): string {
    match setting
    case ToolNames => item
    case RelationTypes => text.upper(item)
    case RequiredRoles => text.lower(item)
    case DevRoles => text.lower(item)
    case Capabilities => text.lower(item)
  }

  ghost predicate Permitted(text: CaseMap, setting: ListSetting, item: string) {
    match setting
    case ToolNames => true
    case RelationTypes => true
    case RequiredRoles => item == "owner" || item == "admin" || item == "member" || item == "viewer"
    case DevRoles => item == "owner" || item == "admin" || item == "member" || item == "viewer"
    case Capabilities =>
      && (forall i | 0 <= i < |item| :: item[i] == '.' || item[i] == '_' || item[i] == '-' || text.alphanumeric(item[i]))
      && (exists i | 0 <= i < |item| :: item[i] != '.' && item[i] != '_' && item[i] != '-')
  }

  /** The items of a value, as they were given: a list as it is, a text cut at its commas. */
  ghost predicate GivenAs(value: ListInput, raw: seq<string>) {
    || value == Items(raw)
    || (value.Joined? && raw != [] && value.text == Join(raw, ',') && forall item <- raw :: ',' !in item)
  }

  ghost predicate CoresOf(raw: seq<string>, cores: seq<string>) {
    |cores| == |raw| && forall i | 0 <= i < |raw| :: CoreOf(raw[i], cores[i])
  }

  lemma PiecesAreCores(value: ListInput, raw: seq<string>, cores: seq<string>)
    requires GivenAs(value, raw) && CoresOf(raw, cores)
    ensures (value.Joined? || value.Items?) && Pieces(value) == cores
  {
    if value.Joined? {
      SplitJoin(raw, ',');
    }
    forall i | 0 <= i < |raw| ensures Stripped(raw)[i] == cores[i] {
      StripIsCore(raw[i], cores[i]);
    }
  }

  lemma RuleBySetting(text: CaseMap, setting: ListSetting, item: string)
    ensures var rule := RuleOf(text, setting);
            && rule.canon(item) == Mapped(text, setting, item)
            && (rule.allowed(item) <==> Permitted(text, setting, item))
            && (rule.required <==> setting == RequiredRoles || setting == RelationTypes || setting == Capabilities)
  {
    if setting == Capabilities {
      IdentifierByCharacter(text, item);
    }
  }

  lemma IdentifierByCharacter(text: CaseMap, item: string)
    ensures IsIdentifier(text, item) <==> Permitted(text, Capabilities, item)
  {
    assert forall c: char :: c in "._-" <==> c == '.' || c == '_' || c == '-';
    assert forall i | 0 <= i < |item| :: item[i] in item;
    if c :| c in item && c !in "._-" {
      var i :| 0 <= i < |item| && item[i] == c;
      assert item[i] != '.' && item[i] != '_' && item[i] != '-';
    }
    if i :| 0 <= i < |item| && item[i] != '.' && item[i] != '_' && item[i] != '-' {
      assert item[i] !in "._-";
    }
  }

  lemma {:induction false} KeptByPiece(pieces: seq<string>, canon: string -> string, x: string)
    ensures x in Kept(pieces, canon) <==> exists i | 0 <= i < |pieces| :: pieces[i] != "" && x == canon(pieces[i])
  {
    if pieces == [] {
    } else {
      var last := |pieces| - 1;
      KeptByPiece(pieces[..last], canon, x);
      if i :| 0 <= i < |pieces| && pieces[i] != "" && x == canon(pieces[i]) {
        assert i == last || pieces[..last][i] == pieces[i];
      }
    }
  }

  /**
   * For all five settings: which values are refused, and which items an accepted one has. Blank items do not count,
   * and a setting that needs an item refuses to have none.
   */
  lemma CleanedExactly(text: CaseMap, setting: ListSetting, value: ListInput, raw: seq<string>, cores: seq<string>)
    requires GivenAs(value, raw) && CoresOf(raw, cores)
    ensures var r := Normalized(RuleOf(text, setting), value);
            && (r == None <==>
                  || (exists i | 0 <= i < |cores| :: cores[i] != "" && !Permitted(text, setting, Mapped(text, setting, cores[i])))
                  || ((setting == RequiredRoles || setting == RelationTypes || setting == Capabilities)
                      && forall i | 0 <= i < |cores| :: cores[i] == ""))
            && (r.Some? ==> forall x :: x in r.value <==>
                              exists i | 0 <= i < |cores| :: cores[i] != "" && x == Mapped(text, setting, cores[i]))
  {
    PiecesAreCores(value, raw, cores);
    var rule := RuleOf(text, setting);
    var kept := Kept(cores, rule.canon);
    Lists.DedupExact(kept);
    RuleBySetting(text, setting, "");
    KeptByMapping(text, setting, cores);
    RefusedByMapping(text, setting, cores, kept);
  }

  lemma KeptByMapping(text: CaseMap, setting: ListSetting, cores: seq<string>)
    ensures forall x :: x in Kept(cores, RuleOf(text, setting).canon) <==>
              exists i | 0 <= i < |cores| :: cores[i] != "" && x == Mapped(text, setting, cores[i])
  {
    var canon := RuleOf(text, setting).canon;
    forall x ensures x in Kept(cores, canon) <==> exists i | 0 <= i < |cores| :: cores[i] != "" && x == canon(cores[i]) {
      KeptByPiece(cores, canon, x);
    }
    forall i | 0 <= i < |cores| ensures RuleOf(text, setting).canon(cores[i]) == Mapped(text, setting, cores[i]) {
      RuleBySetting(text, setting, cores[i]);
    }
  }

  lemma RefusedByMapping(text: CaseMap, setting: ListSetting, cores: seq<string>, kept: seq<string>)
    requires forall x :: x in kept <==> exists i | 0 <= i < |cores| :: cores[i] != "" && x == Mapped(text, setting, cores[i])
    ensures (exists item <- kept :: !RuleOf(text, setting).allowed(item)) <==>
              exists i | 0 <= i < |cores| :: cores[i] != "" && !Permitted(text, setting, Mapped(text, setting, cores[i]))
    ensures kept == [] <==> forall i | 0 <= i < |cores| :: cores[i] == ""
  {
    if item :| item in kept && !RuleOf(text, setting).allowed(item) {
      RuleBySetting(text, setting, item);
    }
    if i :| 0 <= i < |cores| && cores[i] != "" && !Permitted(text, setting, Mapped(text, setting, cores[i])) {
      RuleBySetting(text, setting, Mapped(text, setting, cores[i]));
      assert Mapped(text, setting, cores[i]) in kept;
    }
    assert forall i | 0 <= i < |cores| && cores[i] != "" :: Mapped(text, setting, cores[i]) in kept;
    if kept != [] {
      assert kept[0] in kept;
    }
  }

  lemma NotGiven(text: CaseMap, setting: ListSetting)
    ensures Normalized(RuleOf(text, setting), Absent) == Some([])
    ensures Normalized(RuleOf(text, setting), Malformed) == None
  {
  }
}
