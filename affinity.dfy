/**
 * Column affinity from a declared type (src/api.rs), following section 3.1,
 * "Determination Of Column Affinity", of SQLite's "Datatypes In SQLite"
 * document: the first of five substring rules that matches decides.
 */
module Affinity {
  import opened Text

  /** `ColumnAffinity`. */
  datatype ColumnAffinity = TextAffinity | IntegerAffinity | RealAffinity | BlobAffinity | NumericAffinity

  /** `ExtendedColumnAffinity`: the five affinities plus experimental extras. */
  datatype ExtendedColumnAffinity =
    | ExtText | ExtInteger | ExtReal | ExtBlob | ExtBoolean | ExtJson
    | ExtDatetime | ExtDate | ExtTime | ExtNumeric

  /** `s` contains at least one of `subs`. */
  predicate ContainsAny(s: string, subs: seq<string>)
  {
    exists k :: 0 <= k < |subs| && Contains(s, subs[k])
  }

  // The rules of section 3.1 of "Datatypes In SQLite", in order, as one table.

  /** The substrings of each rule; rule 3 (BLOB) also matches the empty type. */
  function RulePatterns(rule: nat): seq<string>
    requires rule < 4
  {
    match rule
    case 0 => ["int"]
    case 1 => ["char", "clob", "text"]
    case 2 => ["blob"]
    case 3 => ["real", "floa", "doub"]
  }

  /** The affinity each rule assigns; the fall-through rule 4 is NUMERIC. */
  function RuleAffinity(rule: nat): ColumnAffinity
    requires rule <= 4
  {
    match rule
    case 0 => IntegerAffinity
    case 1 => TextAffinity
    case 2 => BlobAffinity
    case 3 => RealAffinity
    case 4 => NumericAffinity
  }

  /** Rule `rule` matches the already-lowered type `t`. */
  predicate RuleMatches(t: string, rule: nat)
    requires rule < 4
  {
    ContainsAny(t, RulePatterns(rule)) || (rule == 2 && t == [])
  }

  /** The first rule from `rule` on that matches `t`, or 4 when none does. */
  function FirstRule(t: string, rule: nat): (r: nat)
    requires rule <= 4
    ensures rule <= r <= 4
    ensures r < 4 ==> RuleMatches(t, r)
    ensures forall q :: rule <= q < r ==> !RuleMatches(t, q)
    decreases 4 - rule
  {
    if rule == 4 then 4
    else if RuleMatches(t, rule) then rule
    else FirstRule(t, rule + 1)
  }

  /** The lowered, trimmed text the rules look at. */
  function Normalized(declaredType: string): string
  {
    Lower(Trim(declaredType))
  }

  /** The rule chain of `from_declared_type`, on the lowered, trimmed type. */
  function Classify(lowered: string): ColumnAffinity
  {
    if Contains(lowered, "int") then IntegerAffinity
    else if Contains(lowered, "char") || Contains(lowered, "clob") || Contains(lowered, "text") then TextAffinity
    else if Contains(lowered, "blob") || lowered == [] then BlobAffinity
    else if Contains(lowered, "real") || Contains(lowered, "floa") || Contains(lowered, "doub") then RealAffinity
    else NumericAffinity
  }

  /** `ColumnAffinity::from_declared_type`. */
  function FromDeclaredType(declaredType: string): (a: ColumnAffinity)
    ensures a == IntegerAffinity <==> Contains(Normalized(declaredType), "int")
  {
    Classify(Normalized(declaredType))
  }

  /** Each rule of the table matches exactly when the code's `contains` tests do. */
  lemma RuleMatchesIff(t: string)
    ensures RuleMatches(t, 0) <==> Contains(t, "int")
    ensures RuleMatches(t, 1) <==> Contains(t, "char") || Contains(t, "clob") || Contains(t, "text")
    ensures RuleMatches(t, 2) <==> Contains(t, "blob") || t == []
    ensures RuleMatches(t, 3) <==> Contains(t, "real") || Contains(t, "floa") || Contains(t, "doub")
  {
    var p0, p1, p2, p3 := RulePatterns(0), RulePatterns(1), RulePatterns(2), RulePatterns(3);
    assert p0[0] == "int";
    assert p1[0] == "char" && p1[1] == "clob" && p1[2] == "text";
    assert p2[0] == "blob";
    assert p3[0] == "real" && p3[1] == "floa" && p3[2] == "doub";
  }

  /** The affinity is the one the first matching rule of the SQLite document assigns. */
  lemma FirstMatchingRuleDecides(declaredType: string)
    ensures FromDeclaredType(declaredType) == RuleAffinity(FirstRule(Normalized(declaredType), 0))
  {
    var t := Normalized(declaredType);
    RuleMatchesIff(t);
    var r := FirstRule(t, 0);
    assert r == 0 <==> RuleMatches(t, 0);
  }

  // Examples from section 3.1.1 of "Datatypes In SQLite", on the lowered type.

  /** VARCHAR contains "char". */
  lemma VarcharIsText()
    ensures Classify("varchar(255)") == TextAffinity
  {
    assert OccursAt("varchar(255)", "char", 3);
    MissingCharacter("varchar(255)", "int", 0);
  }

  /** "floating point" is INTEGER, because it contains "int". */
  lemma FloatingPointIsInteger()
    ensures Classify("floating point") == IntegerAffinity
  {
    assert OccursAt("floating point", "int", 11);
  }

  /** FLOAT matches the REAL rule and none before it. */
  lemma FloatIsReal()
    ensures Classify("float") == RealAffinity
  {
    var f := "float";
    MissingCharacter(f, "int", 0);
    MissingCharacter(f, "char", 0);
    MissingCharacter(f, "clob", 0);
    MissingCharacter(f, "text", 1);
    MissingCharacter(f, "blob", 0);
    assert OccursAt(f, "floa", 0);
  }

  /** DATE matches no rule and falls through to NUMERIC. */
  lemma DateIsNumeric()
    ensures Classify("date") == NumericAffinity
  {
    var d := "date";
    MissingCharacter(d, "int", 0);
    MissingCharacter(d, "char", 0);
    MissingCharacter(d, "clob", 0);
    MissingCharacter(d, "text", 2);
    MissingCharacter(d, "blob", 0);
    MissingCharacter(d, "real", 0);
    MissingCharacter(d, "floa", 0);
    MissingCharacter(d, "doub", 1);
  }

  /** Whitespace keeps its class under lowercasing. */
  lemma LowerKeepsWhitespace(c: char)
    ensures IsWhitespace(LowerChar(c)) == IsWhitespace(c)
  {
  }

  lemma {:induction false} TrimStartLower(s: string)
    ensures TrimStart(Lower(s)) == Lower(TrimStart(s))
  {
    if |s| > 0 {
      LowerKeepsWhitespace(s[0]);
      assert Lower(s)[0] == LowerChar(s[0]);
      if IsWhitespace(s[0]) {
        assert Lower(s)[1..] == Lower(s[1..]);
        TrimStartLower(s[1..]);
      }
    }
  }

  lemma {:induction false} TrimEndLower(s: string)
    ensures TrimEnd(Lower(s)) == Lower(TrimEnd(s))
  {
    if |s| > 0 {
      LowerKeepsWhitespace(s[|s| - 1]);
      assert Lower(s)[|s| - 1] == LowerChar(s[|s| - 1]);
      if IsWhitespace(s[|s| - 1]) {
        assert Lower(s)[..|s| - 1] == Lower(s[..|s| - 1]);
        TrimEndLower(s[..|s| - 1]);
      }
    }
  }

  /** Lowercasing and trimming commute. */
  lemma TrimLowerCommute(s: string)
    ensures Trim(Lower(s)) == Lower(Trim(s))
  {
    TrimStartLower(s);
    TrimEndLower(TrimStart(s));
  }

  /** The rules are case-insensitive: two types that agree up to case get the same affinity. */
  lemma CaseInsensitive(s: string, t: string)
    requires Lower(s) == Lower(t)
    ensures FromDeclaredType(s) == FromDeclaredType(t)
  {
    TrimLowerCommute(s);
    TrimLowerCommute(t);
  }

  /** Whitespace around the declared type is ignored. */
  lemma PaddingIgnored(pre: string, s: string, post: string)
    requires AllWhitespace(pre) && AllWhitespace(post)
    ensures FromDeclaredType(pre + s + post) == FromDeclaredType(s)
  {
    TrimIgnoresPadding(pre, s, post);
  }

  /** "int" wins over every other rule, even when another rule's substring comes first. */
  lemma IntegerFirst(s: string)
    requires Contains(Normalized(s), "char") || Contains(Normalized(s), "blob")
    ensures FromDeclaredType(s) == IntegerAffinity <==> Contains(Normalized(s), "int")
    ensures !Contains(Normalized(s), "int") ==> FromDeclaredType(s) in {TextAffinity, BlobAffinity}
  {
  }

  /** A missing (blank) declared type has BLOB affinity. */
  lemma BlankIsBlob(s: string)
    requires AllWhitespace(s)
    ensures FromDeclaredType(s) == BlobAffinity
  {
    TrimStartOfBlank(s);
    assert Normalized(s) == [];
  }

  /** `ExtendedColumnAffinity::extended_column_affinity_from_type`: no trim, two more rules. */
  function ExtendedFromType(declaredType: string): (a: ExtendedColumnAffinity)
    ensures a !in {ExtDatetime, ExtDate, ExtTime}
  {
    var lowered := Lower(declaredType);
    if Contains(lowered, "int") then ExtInteger
    else if Contains(lowered, "char") || Contains(lowered, "clob") || Contains(lowered, "text") then ExtText
    else if Contains(lowered, "blob") || lowered == [] then ExtBlob
    else if Contains(lowered, "real") || Contains(lowered, "floa") || Contains(lowered, "doub") then ExtReal
    else if Contains(lowered, "json") then ExtJson
    else if Contains(lowered, "boolean") then ExtBoolean
    else ExtNumeric
  }

  /** The extended affinity that extends a plain one. */
  function Extend(a: ColumnAffinity): ExtendedColumnAffinity
  {
    match a
    case TextAffinity => ExtText
    case IntegerAffinity => ExtInteger
    case RealAffinity => ExtReal
    case BlobAffinity => ExtBlob
    case NumericAffinity => ExtNumeric
  }

  /**
   * On a type with no surrounding whitespace the two classifiers agree on the
   * first four rules; where the plain one says NUMERIC the extended one may
   * refine it to JSON or BOOLEAN.
   */
  lemma ExtendedRefinesPlain(s: string)
    requires Trim(s) == s
    ensures FromDeclaredType(s) != NumericAffinity ==> ExtendedFromType(s) == Extend(FromDeclaredType(s))
    ensures FromDeclaredType(s) == NumericAffinity ==> ExtendedFromType(s) in {ExtJson, ExtBoolean, ExtNumeric}
  {
  }

  /** A one-character type is too short for every pattern, so the extended classifier says NUMERIC. */
  lemma OneCharacterIsNumeric(s: string)
    requires |s| == 1
    ensures ExtendedFromType(s) == ExtNumeric
  {
    var lowered := Lower(s);
    forall sub: string | |sub| > 1
      ensures !Contains(lowered, sub)
    {
    }
  }

  /**
   * Because the extended variant does not trim, a type of one blank
   * character (" ", say) is BLOB for one and NUMERIC for the other.
   */
  lemma BlankTypeDisagrees(s: string)
    requires |s| == 1 && IsWhitespace(s[0])
    ensures FromDeclaredType(s) == BlobAffinity
    ensures ExtendedFromType(s) == ExtNumeric
  {
    BlankIsBlob(s);
    OneCharacterIsNumeric(s);
  }
}
