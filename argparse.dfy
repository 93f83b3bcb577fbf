/**
 * The constructor-argument parser of src/vtab_argparse.rs. Each argument of
 * a `CREATE VIRTUAL TABLE ... USING m(...)` is either a configuration option
 * `key=value` or a column declaration `name type`.
 */
module ArgParse {
  import opened Wrappers
  import opened Text
  import opened Affinity

  /** `ColumnDeclaration`: `constraints` is never filled in by the parser. */
  datatype ColumnDeclaration = ColumnDeclaration(name: string, declaredType: Option<string>, constraints: Option<string>)

  /** `ConfigOptionValue`. */
  datatype ConfigOptionValue = Quoted(text: string) | SqliteParameter(text: string) | Bareword(text: string)

  /** `ConfigOption`. */
  datatype ConfigOption = ConfigOption(key: string, value: ConfigOptionValue)

  /** `Argument`. */
  datatype Argument = Column(declaration: ColumnDeclaration) | Config(option: ConfigOption)

  /** The message `parse_argument` gives for an argument that is neither form. */
  const NeitherMessage := "argument is neither a configuration option or column declaration."

  /** The message `parse_config_option_value` gives for a blank value. */
  function EmptyValueMessage(key: string): string
  {
    "Empty value for key '" + key + "'"
  }

  /** `ColumnDeclaration::affinity`: NUMERIC without a declared type. */
  function DeclarationAffinity(d: ColumnDeclaration): (a: ColumnAffinity)
    ensures d.declaredType.None? ==> a == NumericAffinity
    ensures d.declaredType.Some? ==> a == FromDeclaredType(d.declaredType.value)
  {
    match d.declaredType
    case None => NumericAffinity
    case Some(t) => FromDeclaredType(t)
  }

  /** `ColumnDeclaration::vtab_declaration`: the name in single quotes, a space, then the type if any. */
  function VtabDeclaration(d: ColumnDeclaration): (r: string)
    ensures |r| >= |d.name| + 3 && r[..|d.name| + 3] == "'" + d.name + "' "
    ensures r[|d.name| + 3..] == if d.declaredType.Some? then d.declaredType.value else ""
  {
    "'" + d.name + "' " + (if d.declaredType.Some? then d.declaredType.value else "")
  }

  /** A character that opens a quoted value. */
  predicate IsQuote(c: char)
  {
    c == '\'' || c == '"'
  }

  /** A character that opens an SQLite parameter. */
  predicate IsSigil(c: char)
  {
    c == ':' || c == '@'
  }

  /**
   * `parse_config_option_value`: the trimmed value, classified by its first
   * character. A quoted value loses its first and last characters, whatever
   * the last one is.
   */
  function ParseConfigOptionValue(key: string, value: string): (r: Result<ConfigOptionValue, string>)
    ensures r.Err? <==> AllWhitespace(value)
    ensures r.Err? ==> r.error == EmptyValueMessage(key)
    ensures r.Ok? ==> |Trim(value)| > 0
    ensures r.Ok? ==> (r.value.Quoted? <==> IsQuote(Trim(value)[0]))
    ensures r.Ok? ==> (r.value.SqliteParameter? <==> !IsQuote(Trim(value)[0]) && IsSigil(Trim(value)[0]))
    ensures r.Ok? && r.value.Quoted? ==>
      r.value.text == if |Trim(value)| >= 2 then Trim(value)[1..|Trim(value)| - 1] else ""
    ensures r.Ok? && !r.value.Quoted? ==> r.value.text == Trim(value)
  {
    var v := Trim(value);
    TrimEmptyIffBlank(value);
    if |v| == 0 then Err(EmptyValueMessage(key))
    else if IsQuote(v[0]) then Ok(Quoted(if |v| >= 2 then v[1..|v| - 1] else ""))
    else if IsSigil(v[0]) then Ok(SqliteParameter(v))
    else Ok(Bareword(v))
  }

  /** The raw value text of an argument with an `=`: from the first `=` up to the next one, or the end. */
  function ConfigValueText(arg: string): (v: string)
    requires '=' in arg
    ensures '=' !in v
  {
    Before(After(arg, '=').value, '=')
  }

  /** `arg_is_config_option`: the text before the first `=` is the key, the text up to the next `=` the value. */
  function ArgIsConfigOption(arg: string): (r: Result<Option<ConfigOption>, string>)
    ensures r == Ok(None) <==> '=' !in arg
    ensures r.Ok? && r.value.Some? ==> r.value.value.key == Before(arg, '=') && '=' !in r.value.value.key
    ensures '=' in arg ==> (r.Err? <==> AllWhitespace(ConfigValueText(arg)))
    ensures r.Err? ==> r.error == EmptyValueMessage(Before(arg, '='))
    ensures r.Ok? && r.value.Some? ==>
      Ok(r.value.value.value) == ParseConfigOptionValue(Before(arg, '='), ConfigValueText(arg))
  {
    var key := Before(arg, '=');
    match After(arg, '=')
    case None => Ok(None)
    case Some(rest) =>
      match ParseConfigOptionValue(key, Before(rest, '='))
      case Err(e) => Err(e)
      case Ok(v) => Ok(Some(ConfigOption(key, v)))
  }

  /** `arg_is_column_declaration`: the first two space-separated pieces, unless the argument is blank. */
  function ArgIsColumnDeclaration(arg: string): (r: Result<Option<ColumnDeclaration>, string>)
    ensures r.Ok?
    ensures r.value.None? <==> AllWhitespace(arg)
    ensures r.value.Some? ==>
      && r.value.value.name == Before(arg, ' ')
      && ' ' !in r.value.value.name
      && r.value.value.constraints.None?
  {
    TrimEmptyIffBlank(arg);
    if |Trim(arg)| == 0 then Ok(None)
    else
      Ok(Some(ColumnDeclaration(Before(arg, ' '), TypePiece(arg), None)))
  }

  /** `parse_argument`: a configuration option if the argument has an `=`, else a column declaration. */
  function ParseArgument(arg: string): (r: Result<Argument, string>)
    ensures '=' in arg ==> r.Err? || r.value.Config?
    ensures '=' in arg ==> (r.Err? <==> AllWhitespace(ConfigValueText(arg)))
    ensures '=' in arg && r.Err? ==> r.error == EmptyValueMessage(Before(arg, '='))
    ensures '=' in arg && r.Ok? ==>
      && r.value.option.key == Before(arg, '=')
      && Ok(r.value.option.value) == ParseConfigOptionValue(Before(arg, '='), ConfigValueText(arg))
    ensures '=' !in arg ==> (r.Err? <==> AllWhitespace(arg))
    ensures '=' !in arg && r.Err? ==> r.error == NeitherMessage
    ensures '=' !in arg && r.Ok? ==> r.value.Column? && r.value.declaration.name == Before(arg, ' ')
  {
    match ArgIsConfigOption(arg)
    case Err(e) => Err(e)
    case Ok(Some(option)) => Ok(Config(option))
    case Ok(None) =>
      match ArgIsColumnDeclaration(arg)
      case Err(e) => Err(e)
      case Ok(Some(d)) => Ok(Column(d))
      case Ok(None) => Err(NeitherMessage)
  }

  /** Trim gives the empty string exactly for blank strings. */
  lemma TrimEmptyIffBlank(s: string)
    ensures Trim(s) == [] <==> AllWhitespace(s)
  {
    if AllWhitespace(s) {
      TrimStartOfBlank(s);
    } else {
      var k :| 0 <= k < |s| && !IsWhitespace(s[k]);
      var t := TrimStart(s);
      assert s[..|s| - |t|] == s[..|s| - |t|];
      assert |t| > 0 && !IsWhitespace(t[0]);
      assert !AllWhitespace(t);
      assert t[0..] == t;
    }
  }

  /** The parser decides by the `=` alone: with one, the result is an option or an error, never a column. */
  lemma EqualsMeansConfig(arg: string)
    ensures '=' in arg ==> ParseArgument(arg).Err? || ParseArgument(arg).value.Config?
    ensures '=' !in arg && !AllWhitespace(arg) ==> ParseArgument(arg).Ok? && ParseArgument(arg).value.Column?
    ensures '=' !in arg && AllWhitespace(arg) ==> ParseArgument(arg) == Err(NeitherMessage)
  {
  }

  /** A string that trims to itself: it neither starts nor ends with whitespace. */
  predicate Trimmed(s: string)
  {
    |s| > 0 && !IsWhitespace(s[0]) && !IsWhitespace(s[|s| - 1])
  }

  lemma TrimmedIsFixed(s: string)
    requires Trimmed(s)
    ensures Trim(s) == s
  {
  }

  /** How a configuration value is written in an argument. */
  function Render(v: ConfigOptionValue): string
  {
    match v
    case Quoted(text) => "'" + text + "'"
    case SqliteParameter(text) => text
    case Bareword(text) => text
  }

  /** A value the parser can give back: quoted text, or trimmed text opening with the right character; no `=` anywhere. */
  predicate WellFormedValue(v: ConfigOptionValue)
  {
    '=' !in Render(v) &&
    match v
    case Quoted(_) => true
    case SqliteParameter(text) => Trimmed(text) && IsSigil(text[0])
    case Bareword(text) => Trimmed(text) && !IsQuote(text[0]) && !IsSigil(text[0])
  }

  /** Parsing a rendered value gives the value back. */
  lemma ValueRoundTrip(key: string, v: ConfigOptionValue)
    requires WellFormedValue(v)
    ensures ParseConfigOptionValue(key, Render(v)) == Ok(v)
  {
    var s := Render(v);
    if v.Quoted? {
      assert s[0] == '\'' && s[|s| - 1] == '\'';
      assert s[1..|s| - 1] == v.text;
    }
    TrimmedIsFixed(s);
  }

  /** An option `key=value` parses back to its key and value. */
  lemma ConfigRoundTrip(key: string, v: ConfigOptionValue)
    requires '=' !in key && WellFormedValue(v)
    ensures ParseArgument(key + "=" + Render(v)) == Ok(Config(ConfigOption(key, v)))
  {
    var arg := key + "=" + Render(v);
    assert arg == key + ['='] + Render(v);
    SplitJoin(key, Render(v), '=');
    SplitNone(Render(v), '=');
    ValueRoundTrip(key, v);
  }

  /** Only the text between the first and second `=` is the value; the rest is dropped. */
  lemma ValueEndsAtSecondEquals(key: string, value: string, rest: string)
    requires '=' !in key && '=' !in value
    ensures ArgIsConfigOption(key + "=" + value + "=" + rest) == ArgIsConfigOption(key + "=" + value)
  {
    assert key + "=" + value + "=" + rest == key + ['='] + (value + ['='] + rest);
    assert key + "=" + value == key + ['='] + value;
    SplitJoin(key, value + ['='] + rest, '=');
    SplitJoin(key, value, '=');
    SplitJoin(value, rest, '=');
    SplitNone(value, '=');
  }

  /** `key=` followed only by whitespace is the empty-value error for that key. */
  lemma BlankValueIsError(key: string, padding: string)
    requires '=' !in key && AllWhitespace(padding)
    ensures ParseArgument(key + "=" + padding) == Err(EmptyValueMessage(key))
  {
    var arg := key + "=" + padding;
    assert arg == key + ['='] + padding;
    SplitJoin(key, padding, '=');
    SplitNone(padding, '=');
  }

  /** The closing quote is not checked: `'abc` is the quoted value `ab`. */
  lemma UnclosedQuote(key: string, value: string)
    requires value == "'abc"
    ensures ParseConfigOptionValue(key, value) == Ok(Quoted("ab"))
  {
    QuotedDropsEnds(key, value);
    assert value[1..|value| - 1] == "ab";
  }

  /** A column name: no space, no `=`, and not blank. */
  predicate ColumnName(name: string)
  {
    ' ' !in name && '=' !in name && !AllWhitespace(name)
  }

  /** Extending a string that is not blank keeps it not blank. */
  lemma NotBlankExtends(s: string, t: string)
    requires !AllWhitespace(s)
    ensures !AllWhitespace(s + t)
  {
    var k :| 0 <= k < |s| && !IsWhitespace(s[k]);
    assert (s + t)[k] == s[k];
  }

  /** The declared type `arg_is_column_declaration` reads: the piece after the first space, up to the next. */
  function TypePiece(arg: string): Option<string>
  {
    match After(arg, ' ')
    case None => None
    case Some(rest) => Some(Before(rest, ' '))
  }

  /** An argument with no `=` that is not blank is a column declaration. */
  lemma ColumnArgument(arg: string)
    requires '=' !in arg && !AllWhitespace(arg)
    ensures ParseArgument(arg) == Ok(Column(ColumnDeclaration(Before(arg, ' '), TypePiece(arg), None)))
  {
  }

  /** `name` alone declares a column with no type. */
  lemma BareColumnRoundTrip(name: string)
    requires ColumnName(name)
    ensures ParseArgument(name) == Ok(Column(ColumnDeclaration(name, None, None)))
  {
    SplitNone(name, ' ');
    SplitNone(name, '=');
  }

  /** `name type` declares a column with that type; anything after a further space is dropped. */
  lemma TypedColumnRoundTrip(name: string, declaredType: string, rest: string)
    requires ColumnName(name) && ' ' !in declaredType && '=' !in declaredType + rest
    requires rest == [] || rest[0] == ' '
    ensures ParseArgument(name + " " + declaredType + rest)
      == Ok(Column(ColumnDeclaration(name, Some(declaredType), None)))
  {
    var tail := declaredType + rest;
    var arg := name + [' '] + tail;
    assert name + " " + declaredType + rest == arg;
    NotBlankExtends(name, [' '] + tail);
    assert name + [' '] + tail == name + ([' '] + tail);
    SplitJoin(name, tail, ' ');
    assert '=' !in arg;
    ColumnArgument(arg);
    TypeEndsAtSpace(declaredType, rest);
  }

  /** The type piece ends at the next space, or at the end. */
  lemma TypeEndsAtSpace(declaredType: string, rest: string)
    requires ' ' !in declaredType
    requires rest == [] || rest[0] == ' '
    ensures Before(declaredType + rest, ' ') == declaredType
  {
    if rest == [] {
      assert declaredType + rest == declaredType;
      SplitNone(declaredType, ' ');
    } else {
      SplitJoin(declaredType, rest[1..], ' ');
      assert declaredType + [' '] + rest[1..] == declaredType + rest;
    }
  }

  /** A value that opens with a quote loses its first and last characters. */
  lemma QuotedDropsEnds(key: string, value: string)
    requires Trimmed(value) && IsQuote(value[0]) && |value| >= 2
    ensures ParseConfigOptionValue(key, value) == Ok(Quoted(value[1..|value| - 1]))
  {
    TrimmedIsFixed(value);
  }

  // The cases of the module's own test of `parse_argument`, each over the
  // pieces of its argument.

  /** "name text" is the column `name` of type `text`. */
  lemma ParseNameText(name: string, declaredType: string)
    requires name == "name" && declaredType == "text"
    ensures ParseArgument(name + " " + declaredType) == Ok(Column(ColumnDeclaration(name, Some(declaredType), None)))
  {
    assert !IsWhitespace(name[0]);
    TypedColumnRoundTrip(name, declaredType, "");
    assert name + " " + declaredType + "" == name + " " + declaredType;
  }

  /** "name" is the column `name` with no type. */
  lemma ParseName(name: string)
    requires name == "name"
    ensures ParseArgument(name) == Ok(Column(ColumnDeclaration(name, None, None)))
  {
    assert !IsWhitespace(name[0]);
    BareColumnRoundTrip(name);
  }

  /** "option='quoted'" is the option `option` with the quoted value `quoted`. */
  lemma ParseQuotedOption(key: string, value: string)
    requires key == "option" && value == "'quoted'"
    ensures ParseArgument(key + "=" + value) == Ok(Config(ConfigOption(key, Quoted("quoted"))))
  {
    var inner := value[1..|value| - 1];
    assert inner == "quoted";
    assert Render(Quoted(inner)) == value;
    ConfigRoundTrip(key, Quoted(inner));
  }

  /** "option=:param" is the option `option` with the parameter `:param`, sigil included. */
  lemma ParseParameterOption(key: string, parameter: string)
    requires key == "option" && parameter == ":param"
    ensures ParseArgument(key + "=" + parameter) == Ok(Config(ConfigOption(key, SqliteParameter(parameter))))
  {
    assert parameter[0] == ':' && parameter[|parameter| - 1] == 'm';
    ConfigRoundTrip(key, SqliteParameter(parameter));
  }

  /** "option=bareword" is the option `option` with the bareword `bareword`. */
  lemma ParseBarewordOption(key: string, word: string)
    requires key == "option" && word == "bareword"
    ensures ParseArgument(key + "=" + word) == Ok(Config(ConfigOption(key, Bareword(word))))
  {
    ConfigRoundTrip(key, Bareword(word));
  }

  /** A parsed `name type` column declares itself to the engine as `'name' type`. */
  lemma DeclarationOfParsedColumn(name: string, declaredType: string)
    requires ColumnName(name) && ' ' !in declaredType && '=' !in declaredType
    ensures ParseArgument(name + " " + declaredType).Ok?
    ensures VtabDeclaration(ParseArgument(name + " " + declaredType).value.declaration)
      == "'" + name + "' " + declaredType
    ensures DeclarationAffinity(ParseArgument(name + " " + declaredType).value.declaration)
      == FromDeclaredType(declaredType)
  {
    TypedColumnRoundTrip(name, declaredType, "");
    assert declaredType + "" == declaredType;
    assert name + " " + declaredType + "" == name + " " + declaredType;
  }

  /** A column declared without a type has NUMERIC affinity and declares itself as `'name' `. */
  lemma UntypedColumnIsNumeric(name: string)
    requires ColumnName(name)
    ensures ParseArgument(name).Ok? && ParseArgument(name).value.Column?
    ensures DeclarationAffinity(ParseArgument(name).value.declaration) == NumericAffinity
    ensures VtabDeclaration(ParseArgument(name).value.declaration) == "'" + name + "' "
  {
    BareColumnRoundTrip(name);
    assert "'" + name + "' " + "" == "'" + name + "' ";
  }
}
