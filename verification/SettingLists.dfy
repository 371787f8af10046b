/** List-valued settings: comma-separated text or a list, cleaned into distinct canonical items. */
module SettingLists {
  import opened Wrappers
  import opened Text
  import opened Lists

  /** What the environment may hold for a list setting. List items are taken as already turned into text. */
  datatype ListInput = Absent | Joined(text: string) | Items(items: seq<string>) | Malformed

  /** The case mappings and character classes of the source's strings. */
  datatype CaseMap = CaseMap(lower: string -> string, upper: string -> string, alphanumeric: char -> bool) {
    ghost predicate Lawful() {
      && Canonicalises(lower)
      && Canonicalises(upper)
      && (forall word <- {"lax", "strict", "none"} :: lower(word) == word)
    }
  }

  /** A mapping that settles after one step and adds neither white space nor commas. */
  ghost predicate Canonicalises(canon: string -> string) {
    forall s: string | Trimmed(s) && s != "" ::
      && canon(s) != "" && Trimmed(canon(s))
      && canon(canon(s)) == canon(s)
      && (',' !in s ==> ',' !in canon(s))
  }

  /** How one setting maps its items, which it refuses, and whether it insists on having one. */
  datatype ListRule = ListRule(canon: string -> string, allowed: string -> bool, required: bool)

  const ORG_ROLES: set<string> := {"owner", "admin", "member", "viewer"}

  function StringListRule(): ListRule { ListRule(s => s, s => true, false) }

  function RequiredRolesRule(text: CaseMap): ListRule { ListRule(text.lower, s => s in ORG_ROLES, true) }

  function DevRolesRule(text: CaseMap): ListRule { RequiredRolesRule(text).(required := false) }

  function RelationTypesRule(text: CaseMap): ListRule { ListRule(text.upper, s => true, true) }

  function CapabilitiesRule(text: CaseMap): ListRule { ListRule(text.lower, s => IsIdentifier(text, s), true) }

  /** The five kinds of list settings. */
  datatype ListSetting = ToolNames | RequiredRoles | DevRoles | RelationTypes | Capabilities

  function RuleOf(text: CaseMap, setting: ListSetting): ListRule {
    match setting
    case ToolNames => StringListRule()
    case RequiredRoles => RequiredRolesRule(text)
    case DevRoles => DevRolesRule(text)
    case RelationTypes => RelationTypesRule(text)
    case Capabilities => CapabilitiesRule(text)
  }

  /** Alphanumeric once dots, underscores and hyphens are taken out, and not empty then. */
  predicate IsIdentifier(text: CaseMap, s: string) {
    && (forall c <- s :: text.alphanumeric(c) || c in "._-")
    && (exists c <- s :: c !in "._-")
  }

  function Stripped(items: seq<string>): seq<string> {
    seq(|items|, i requires 0 <= i < |items| => Strip(items[i]))
  }

  function Pieces(value: ListInput): seq<string>
    requires value.Joined? || value.Items?
  {
    Stripped(if value.Joined? then Split(value.text, ',') else value.items)
  }

  /** The canonical form of every piece that is not blank. */
  function Kept(pieces: seq<string>, canon: string -> string): seq<string> {
    if pieces == [] then []
    else
      var last := |pieces| - 1;
      var before := Kept(pieces[..last], canon);
      if pieces[last] == "" then before else before + [canon(pieces[last])]
  }

  /** The cleaned list, or nothing where the source raises. */
  function Normalized(rule: ListRule, value: ListInput): Option<seq<string>> {
    match value
    case Absent => Some([])
    case Malformed => None
    case _ =>
      var kept := Kept(Pieces(value), rule.canon);
      if (exists item <- kept :: !rule.allowed(item)) || (rule.required && kept == []) then None
      else Some(Dedup(kept))
  }

  /** The loop shared by the list validators, which differ in their rule only. */
  method NormalizeList(rule: ListRule, value: ListInput) returns (r: Option<seq<string>>)
    ensures r == Normalized(rule, value)
  {
    if value.Absent? {
      return Some([]);
    }
    if value.Malformed? {
      return None;
    }
    var pieces := Pieces(value);
    var cleaned := CleanPieces(rule, pieces);
    if cleaned.None? {
      return None;
    }
    DedupExact(Kept(pieces, rule.canon));
    if rule.required && cleaned.value == [] {
      return None;
    }
    return cleaned;
  }

  method CleanPieces(rule: ListRule, pieces: seq<string>) returns (r: Option<seq<string>>)
    ensures var kept := Kept(pieces, rule.canon);
            if exists item <- kept :: !rule.allowed(item) then r == None else r == Some(Dedup(kept))
  {
    var normalized: seq<string> := [];
    for i := 0 to |pieces|
      invariant normalized == Dedup(Kept(pieces[..i], rule.canon))
      invariant forall item <- Kept(pieces[..i], rule.canon) :: rule.allowed(item)
    {
      KeptStep(pieces, i, rule.canon);
      if pieces[i] != "" {
        var item := rule.canon(pieces[i]);
        if !rule.allowed(item) {
          return None;
        }
        if item !in normalized {
          normalized := normalized + [item];
        }
      }
    }
    assert pieces[..|pieces|] == pieces;
    return Some(normalized);
  }

  /** One turn of the loop. */
  lemma KeptStep(pieces: seq<string>, i: nat, canon: string -> string)
    requires i < |pieces|
    ensures var before, after := Kept(pieces[..i], canon), Kept(pieces[..i + 1], canon);
            && after == before + (if pieces[i] == "" then [] else [canon(pieces[i])])
            && Dedup(after) == (if pieces[i] == "" || canon(pieces[i]) in Dedup(before) then Dedup(before)
                                else Dedup(before) + [canon(pieces[i])])
    ensures pieces[i] != "" ==> canon(pieces[i]) in Kept(pieces, canon)
  {
    assert pieces[..i + 1][..i] == pieces[..i];
    var before, after := Kept(pieces[..i], canon), Kept(pieces[..i + 1], canon);
    if pieces[i] != "" {
      assert after[..|before|] == before;
      KeptPrefix(pieces, i + 1, canon);
      assert Kept(pieces, canon)[|before|] == canon(pieces[i]);
    }
  }

  lemma StrippedAreTrimmed(items: seq<string>)
    ensures forall piece <- Stripped(items) :: Trimmed(piece)
  {
    forall i | 0 <= i < |items| ensures Trimmed(Stripped(items)[i]) {
      StripTrims(items[i]);
    }
  }

  lemma {:induction false} KeptPrefix(pieces: seq<string>, n: nat, canon: string -> string)
    requires n <= |pieces|
    ensures Kept(pieces[..n], canon) <= Kept(pieces, canon)
  {
    if n == |pieces| {
      assert pieces[..n] == pieces;
    } else {
      var last := |pieces| - 1;
      KeptPrefix(pieces[..last], n, canon);
      assert pieces[..last][..n] == pieces[..n];
    }
  }

  /** Every kept item is the canonical form of some piece, so the laws of the mapping apply to it. */
  lemma {:induction false} KeptComeFromPieces(pieces: seq<string>, canon: string -> string)
    ensures forall x <- Kept(pieces, canon) :: exists p <- pieces :: p != "" && x == canon(p)
  {
    if pieces == [] {
    } else {
      var last := |pieces| - 1;
      KeptComeFromPieces(pieces[..last], canon);
      forall x <- Kept(pieces, canon) ensures exists p <- pieces :: p != "" && x == canon(p) {
        if x in Kept(pieces[..last], canon) {
          var p :| p in pieces[..last] && p != "" && x == canon(p);
          assert p in pieces;
        } else {
          assert pieces[last] in pieces;
        }
      }
    }
  }

  lemma {:induction false} KeptOfCanonical(items: seq<string>, canon: string -> string)
    requires forall x <- items :: x != "" && canon(x) == x
    ensures Kept(items, canon) == items
  {
    if items == [] {
    } else {
      var last := |items| - 1;
      forall x <- items[..last] ensures x != "" && canon(x) == x {
        assert x in items;
      }
      KeptOfCanonical(items[..last], canon);
    }
  }

  /**
   * An accepted list is free of repetitions and of blanks, canonical, allowed, and in the order in which its items
   * first appear in the input; no item is lost and none is invented.
   */
  lemma NormalizedShape(rule: ListRule, value: ListInput, list: seq<string>)
    requires Canonicalises(rule.canon)
    requires Normalized(rule, value) == Some(list) && !value.Absent?
    ensures Distinct(list) && (rule.required ==> list != [])
    ensures forall x <- list :: x != "" && Trimmed(x) && rule.canon(x) == x && rule.allowed(x)
    ensures var kept := Kept(Pieces(value), rule.canon);
            InFirstAppearanceOrder(list, kept) && (forall x :: x in list <==> x in kept)
  {
    var pieces := Pieces(value);
    var kept := Kept(pieces, rule.canon);
    DedupExact(kept);
    KeptComeFromPieces(pieces, rule.canon);
    StrippedAreTrimmed(if value.Joined? then Split(value.text, ',') else value.items);
    if rule.required {
      assert kept[0] in list;
    }
  }

  /** What comes from comma-separated text has no commas left. */
  lemma JoinedLeavesNoCommas(rule: ListRule, text: string, list: seq<string>)
    requires Canonicalises(rule.canon)
    requires Normalized(rule, Joined(text)) == Some(list)
    ensures forall x <- list :: ',' !in x
  {
    NormalizedShape(rule, Joined(text), list);
    JoinSplit(text, ',');
    var parts, pieces := Split(text, ','), Pieces(Joined(text));
    KeptComeFromPieces(pieces, rule.canon);
    StrippedAreTrimmed(parts);
    forall p <- pieces ensures ',' !in p {
      var i :| 0 <= i < |pieces| && pieces[i] == p;
      assert parts[i] in parts;
      StripAddsNothing(parts[i], ',');
    }
  }

  lemma StripAddsNothing(s: string, c: char)
    requires c !in s
    ensures c !in Strip(s)
  {
    var before, after := StripDecomposes(s);
  }

  /**
   * Cleaning a cleaned list changes nothing. The one exception is a required list that was left out: the source
   * lets the missing value through as an empty list, which it would refuse if it were given.
   */
  lemma NormalizeAgain(rule: ListRule, value: ListInput, list: seq<string>)
    requires Canonicalises(rule.canon)
    requires Normalized(rule, value) == Some(list)
    ensures Normalized(rule, Items(list)) == Some(list) <==> !(rule.required && value.Absent?)
  {
    if value.Absent? {
      assert Pieces(Items([])) == [];
    } else {
      NormalizedShape(rule, value, list);
      CanonicalListKept(rule, list);
    }
  }

  /** For the five settings themselves: a cleaned value cleans to itself, a missing required one excepted. */
  lemma SettingsSettle(text: CaseMap, setting: ListSetting, value: ListInput, list: seq<string>)
    requires text.Lawful()
    requires Normalized(RuleOf(text, setting), value) == Some(list)
    ensures Normalized(RuleOf(text, setting), Items(list)) == Some(list) <==>
              !(value.Absent? && setting in {RequiredRoles, RelationTypes, Capabilities})
  {
    NormalizeAgain(RuleOf(text, setting), value, list);
  }

  lemma CanonicalListKept(rule: ListRule, list: seq<string>)
    requires Distinct(list) && (rule.required ==> list != [])
    requires forall x <- list :: x != "" && Trimmed(x) && rule.canon(x) == x && rule.allowed(x)
    ensures Normalized(rule, Items(list)) == Some(list)
  {
    assert Stripped(list) == list by {
      forall i | 0 <= i < |list| ensures Stripped(list)[i] == list[i] {
        assert list[i] in list;
        StripKeepsTrimmed(list[i]);
      }
    }
    KeptOfCanonical(list, rule.canon);
    DedupDistinct(list);
  }

  /** Writing a cleaned list back as comma-separated text preserves it exactly when no item has a comma in it. */
  lemma NormalizeJoined(rule: ListRule, value: ListInput, list: seq<string>)
    requires Canonicalises(rule.canon)
    requires Normalized(rule, value) == Some(list) && !value.Absent?
    ensures Normalized(rule, Joined(Join(list, ','))) == Some(list) <==> (forall x <- list :: ',' !in x)
  {
    NormalizedShape(rule, value, list);
    var again := Joined(Join(list, ','));
    if forall x <- list :: ',' !in x {
      if list == [] {
        assert Pieces(again) == [""];
        assert Kept([""], rule.canon) == [];
      } else {
        SplitJoin(list, ',');
        CanonicalListKept(rule, list);
        assert Pieces(again) == Pieces(Items(list));
      }
    } else if Normalized(rule, again) == Some(list) {
      JoinedLeavesNoCommas(rule, again.text, list);
    }
  }
}
