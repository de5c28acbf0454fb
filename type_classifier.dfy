/** Classification of a resource's raw type string into the closed content
    taxonomy (`typestr_to_type` in src/summarize/utils.rs). */
module TypeClassifier {

  /** The closed taxonomy of content types; `Unknown` keeps the raw string. */
  datatype ItemType =
    | Assignment
    | Assessment
    | DiscussionTopic
    | WebContent
    | WebLink
    | NoType
    | Unknown(typeString: string)

  /** The resource type Common Cartridge 1.1 uses for associated content. */
  const LEARNING_APPLICATION_RESOURCE: string :=
    "associatedcontent/imscc_xmlv1p1/learning-application-resource"

  /** `pat` occurs in `s` at offset `i`. */
  predicate OccursAt(s: string, pat: string, i: int) {
    0 <= i && i + |pat| <= |s| && s[i..i + |pat|] == pat
  }

  /** Unanchored search for a literal: what `Regex::is_match` does for a
      pattern without metacharacters. */
  predicate Contains(s: string, pat: string) {
    exists i | 0 <= i <= |s| - |pat| :: OccursAt(s, pat, i)
  }

  /** A pattern holding a character that `s` lacks does not occur in `s`. */
  lemma AbsentChar(s: string, pat: string, c: char)
    requires c in pat && c !in s
    ensures !Contains(s, pat)
  {
    var k :| 0 <= k < |pat| && pat[k] == c;
    forall i | 0 <= i <= |s| - |pat| ensures !OccursAt(s, pat, i) {
      assert s[i..i + |pat|][k] == s[i + k] != c;
    }
  }

  /** `typestr_to_type`: a first-match-wins chain of literal-pattern tests. */
  function TypestrToType(iType: string): (r: ItemType)
    ensures r.NoType? <==> iType == []
    ensures r.Unknown? ==> r.typeString == iType
  {
    if iType == [] then NoType
    else if Contains(iType, "assignment") || Contains(iType, LEARNING_APPLICATION_RESOURCE) then Assignment
    else if Contains(iType, "assessment") || Contains(iType, "quiz") then Assessment
    else if Contains(iType, "imsdt") then DiscussionTopic
    else if Contains(iType, "webcontent") then WebContent
    else if Contains(iType, "wl") then WebLink
    else Unknown(iType)
  }

  /** The same classification written as data: an ordered table of
      (alternative literals, type) rules, tried top to bottom. */
  datatype Rule = Rule(patterns: seq<string>, kind: ItemType)

  const RULES: seq<Rule> := [
    Rule(["assignment", LEARNING_APPLICATION_RESOURCE], Assignment),
    Rule(["assessment", "quiz"], Assessment),
    Rule(["imsdt"], DiscussionTopic),
    Rule(["webcontent"], WebContent),
    Rule(["wl"], WebLink)
  ]

  predicate Matches(rule: Rule, s: string) {
    exists p :: p in rule.patterns && Contains(s, p)
  }

  function FirstMatch(rules: seq<Rule>, s: string): ItemType {
    if rules == [] then Unknown(s)
    else if Matches(rules[0], s) then rules[0].kind
    else FirstMatch(rules[1..], s)
  }

  /** FirstMatch yields Unknown or the type of one of the rules. */
  lemma {:induction false} FirstMatchFromTable(rules: seq<Rule>, s: string)
    ensures FirstMatch(rules, s).Unknown? || exists j :: 0 <= j < |rules| && FirstMatch(rules, s) == rules[j].kind
  {
    if rules != [] && !Matches(rules[0], s) {
      FirstMatchFromTable(rules[1..], s);
      if !FirstMatch(rules[1..], s).Unknown? {
        var j :| 0 <= j < |rules[1..]| && FirstMatch(rules[1..], s) == rules[1..][j].kind;
        assert FirstMatch(rules, s) == rules[j + 1].kind;
      }
    }
  }

  /** FirstMatch yields rule k's type exactly when rule k is the first rule
      that matches (the kinds in the table being pairwise distinct). */
  lemma {:induction false} FirstMatchPicksFirst(rules: seq<Rule>, s: string, k: int)
    requires 0 <= k < |rules|
    requires forall a, b :: 0 <= a < b < |rules| ==> rules[a].kind != rules[b].kind
    requires forall a :: 0 <= a < |rules| ==> !rules[a].kind.Unknown?
    ensures FirstMatch(rules, s) == rules[k].kind
            <==> Matches(rules[k], s) && forall j :: 0 <= j < k ==> !Matches(rules[j], s)
  {
    if k == 0 {
      if !Matches(rules[0], s) {
        FirstMatchFromTable(rules[1..], s);
        assert forall j :: 0 <= j < |rules[1..]| ==> rules[1..][j] == rules[j + 1];
      }
    } else {
      if Matches(rules[0], s) {
        assert rules[0].kind != rules[k].kind;
      } else {
        FirstMatchPicksFirst(rules[1..], s, k - 1);
        assert forall j :: 1 <= j < k ==> rules[1..][j - 1] == rules[j];
      }
    }
  }

  /** FirstMatch falls through to Unknown exactly when no rule matches. */
  lemma {:induction false} FirstMatchUnknown(rules: seq<Rule>, s: string)
    requires forall a :: 0 <= a < |rules| ==> !rules[a].kind.Unknown?
    ensures FirstMatch(rules, s).Unknown? <==> forall j :: 0 <= j < |rules| ==> !Matches(rules[j], s)
  {
    if rules != [] && !Matches(rules[0], s) {
      FirstMatchUnknown(rules[1..], s);
      assert forall j :: 1 <= j < |rules| ==> rules[1..][j - 1] == rules[j];
    }
  }

  /** The rule table, tried top to bottom, as a chain of tests. */
  lemma RulesInOrder(s: string)
    ensures FirstMatch(RULES, s) ==
              if Matches(RULES[0], s) then Assignment
              else if Matches(RULES[1], s) then Assessment
              else if Matches(RULES[2], s) then DiscussionTopic
              else if Matches(RULES[3], s) then WebContent
              else if Matches(RULES[4], s) then WebLink
              else Unknown(s)
  {
    var tail := RULES;
    assert FirstMatch(tail, s) == if Matches(RULES[0], s) then Assignment else FirstMatch(tail[1..], s);
    tail := tail[1..];
    assert tail[0] == RULES[1];
    assert FirstMatch(tail, s) == if Matches(RULES[1], s) then Assessment else FirstMatch(tail[1..], s);
    tail := tail[1..];
    assert tail[0] == RULES[2];
    assert FirstMatch(tail, s) == if Matches(RULES[2], s) then DiscussionTopic else FirstMatch(tail[1..], s);
    tail := tail[1..];
    assert tail[0] == RULES[3];
    assert FirstMatch(tail, s) == if Matches(RULES[3], s) then WebContent else FirstMatch(tail[1..], s);
    tail := tail[1..];
    assert tail[0] == RULES[4];
    assert FirstMatch(tail, s) == if Matches(RULES[4], s) then WebLink else FirstMatch(tail[1..], s);
    tail := tail[1..];
    assert tail == [];
  }

  /** Each rule of the table matches exactly when one of its literals occurs. */
  lemma RulesMatch(s: string)
    ensures Matches(RULES[0], s) <==> Contains(s, "assignment") || Contains(s, LEARNING_APPLICATION_RESOURCE)
    ensures Matches(RULES[1], s) <==> Contains(s, "assessment") || Contains(s, "quiz")
    ensures Matches(RULES[2], s) <==> Contains(s, "imsdt")
    ensures Matches(RULES[3], s) <==> Contains(s, "webcontent")
    ensures Matches(RULES[4], s) <==> Contains(s, "wl")
  {
    assert RULES[0].patterns == ["assignment", LEARNING_APPLICATION_RESOURCE];
    assert RULES[1].patterns == ["assessment", "quiz"];
    assert RULES[2].patterns == ["imsdt"];
    assert RULES[3].patterns == ["webcontent"];
    assert RULES[4].patterns == ["wl"];
  }

  /** The chain in TypestrToType is the rule table read top to bottom. */
  lemma TypestrIsTable(iType: string)
    ensures TypestrToType(iType) == if iType == [] then NoType else FirstMatch(RULES, iType)
  {
    RulesInOrder(iType);
    RulesMatch(iType);
  }

  /** A non-empty type string is classified as rule k's type exactly when
      it contains one of rule k's literals and none of an earlier rule's. */
  lemma ClassifiedByRule(iType: string, k: int)
    requires iType != [] && 0 <= k < |RULES|
    ensures TypestrToType(iType) == RULES[k].kind
            <==> Matches(RULES[k], iType) && forall j :: 0 <= j < k ==> !Matches(RULES[j], iType)
  {
    TypestrIsTable(iType);
    FirstMatchPicksFirst(RULES, iType, k);
  }

  /** A non-empty type string is Unknown exactly when no rule's literal occurs in it. */
  lemma UnknownWhenNoRule(iType: string)
    requires iType != []
    ensures TypestrToType(iType) == Unknown(iType)
            <==> forall j :: 0 <= j < |RULES| ==> !Matches(RULES[j], iType)
  {
    TypestrIsTable(iType);
    FirstMatchUnknown(RULES, iType);
  }
}

/** The classifier on the type strings of the test fixture's resources and
    on the table's edge cases. */
module ClassifierExamples {
  import opened TypeClassifier

  lemma ClassifyWebContent()
    ensures TypestrToType("webcontent") == WebContent
  {
    AbsentChar("webcontent", "assignment", 'g');
    AbsentChar("webcontent", "assessment", 'a');
    AbsentChar("webcontent", "quiz", 'q');
    AbsentChar("webcontent", "imsdt", 'i');
    assert OccursAt("webcontent", "webcontent", 0);
  }

  lemma ClassifyDiscussion()
    ensures TypestrToType("imsdt_xmlv1p1") == DiscussionTopic
  {
    AbsentChar("imsdt_xmlv1p1", "assignment", 'g');
    AbsentChar("imsdt_xmlv1p1", "assessment", 'a');
    AbsentChar("imsdt_xmlv1p1", "quiz", 'q');
    assert OccursAt("imsdt_xmlv1p1", "imsdt", 0);
  }

  lemma ClassifyAssessment()
    ensures TypestrToType("imsqti_xmlv1p2/imscc_xmlv1p1/assessment") == Assessment
  {
    AbsentChar("imsqti_xmlv1p2/imscc_xmlv1p1/assessment", "assignment", 'g');
    assert OccursAt("imsqti_xmlv1p2/imscc_xmlv1p1/assessment", "assessment", 29);
  }

  lemma ClassifyAssignment()
    ensures TypestrToType(LEARNING_APPLICATION_RESOURCE) == Assignment
  {
    assert OccursAt(LEARNING_APPLICATION_RESOURCE, LEARNING_APPLICATION_RESOURCE, 0);
  }

  lemma ClassifyUnrecognised()
    ensures TypestrToType("other") == Unknown("other")
  {
    AbsentChar("other", "assignment", 'a');
    AbsentChar("other", "assessment", 'a');
    AbsentChar("other", "quiz", 'q');
    AbsentChar("other", "imsdt", 'i');
    AbsentChar("other", "webcontent", 'w');
    AbsentChar("other", "wl", 'w');
  }
}
