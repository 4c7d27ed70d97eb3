/** The logger's category filter: glob matching, the category list, and its cache. */
module CategoryFilter {

  // ----- globs -----

  function Flatten(parts: seq<string>): string
  {
    if parts == [] then "" else parts[0] + Flatten(parts[1..])
  }

  // What one pattern character stands for.
  predicate Piece(c: char, part: string)
  {
    c == '*' || (|part| == 1 && (c == '?' || part[0] == c))
  }

  /** What a glob means: the string is a sequence of parts, one per pattern character: any string
      for `*`, any one character for `?`, and the character itself otherwise. */
  ghost predicate Fits(str: string, pat: string, parts: seq<string>)
  {
    && |parts| == |pat| && Flatten(parts) == str
    && (forall i :: 0 <= i < |pat| ==> Piece(pat[i], parts[i]))
  }

  ghost predicate Matches(str: string, pat: string)
  {
    exists parts :: Fits(str, pat, parts)
  }

  lemma FitsCons(str: string, pat: string, k: nat, parts: seq<string>)
    requires pat != [] && k <= |str| && Fits(str[k..], pat[1..], parts) && Piece(pat[0], str[..k])
    ensures Fits(str, pat, [str[..k]] + parts)
  {
    var all := [str[..k]] + parts;
    assert all[1..] == parts && str == str[..k] + str[k..];
    forall i | 0 <= i < |pat|
      ensures Piece(pat[i], all[i])
    {
      if i > 0 { assert Piece(pat[1..][i - 1], parts[i - 1]); }
    }
  }

  lemma FitsTail(str: string, pat: string, parts: seq<string>)
    requires pat != [] && Fits(str, pat, parts)
    ensures |parts[0]| <= |str| && str[..|parts[0]|] == parts[0] && Piece(pat[0], parts[0])
    ensures Fits(str[|parts[0]|..], pat[1..], parts[1..])
  {
    assert str == parts[0] + Flatten(parts[1..]);
  }

  // The part of a leading `*` is empty, or it can give up its first character.
  lemma StarShrinks(str: string, pat: string)
    requires pat != [] && pat[0] == '*' && Matches(str, pat)
    ensures Matches(str, pat[1..]) || (str != [] && Matches(str[1..], pat))
  {
    var parts :| Fits(str, pat, parts);
    FitsTail(str, pat, parts);
    var k := |parts[0]|;
    if k == 0 {
      assert str[0..] == str;
    } else {
      assert str[1..][k - 1..] == str[k..];
      FitsCons(str[1..], pat, k - 1, parts[1..]);
    }
  }

  lemma StarEmpty(str: string, pat: string)
    requires pat != [] && pat[0] == '*' && Matches(str, pat[1..])
    ensures Matches(str, pat)
  {
    var parts :| Fits(str, pat[1..], parts);
    assert str[0..] == str;
    FitsCons(str, pat, 0, parts);
  }

  lemma StarGrows(str: string, pat: string)
    requires pat != [] && pat[0] == '*' && str != [] && Matches(str[1..], pat)
    ensures Matches(str, pat)
  {
    var parts :| Fits(str[1..], pat, parts);
    FitsTail(str[1..], pat, parts);
    var k := |parts[0]|;
    assert str[1..][k..] == str[k + 1..];
    FitsCons(str, pat, k + 1, parts[1..]);
  }

  // A glob that begins with `*` matches when its rest matches some suffix.
  lemma StarMatches(str: string, pat: string)
    requires pat != [] && pat[0] == '*'
    ensures Matches(str, pat) <==> Matches(str, pat[1..]) || (str != [] && Matches(str[1..], pat))
  {
    if Matches(str, pat) { StarShrinks(str, pat); }
    if Matches(str, pat[1..]) { StarEmpty(str, pat); }
    if str != [] && Matches(str[1..], pat) { StarGrows(str, pat); }
  }

  // Any other first character consumes one character of the string.
  lemma CharMatches(str: string, pat: string)
    requires pat != [] && pat[0] != '*'
    ensures Matches(str, pat) <==> str != [] && (pat[0] == '?' || pat[0] == str[0]) && Matches(str[1..], pat[1..])
  {
    if Matches(str, pat) {
      var parts :| Fits(str, pat, parts);
      FitsTail(str, pat, parts);
      assert parts[0][0] == str[0];
    }
    if str != [] && (pat[0] == '?' || pat[0] == str[0]) && Matches(str[1..], pat[1..]) {
      var parts :| Fits(str[1..], pat[1..], parts);
      FitsCons(str, pat, 1, parts);
    }
  }

  lemma EmptyMatches(str: string)
    ensures Matches(str, "") <==> str == ""
  {
    assert str == "" ==> Fits(str, "", []);
  }

  /** `wildCardMatch`: a loop over the pattern that recurses at each `*`. */
  method WildCardMatch(str0: string, pat0: string) returns (r: bool)
    ensures r == Matches(str0, pat0)
    decreases |str0| + |pat0|
  {
    var str, pat := str0, pat0;
    while pat != []
      invariant |str| + |pat| <= |str0| + |pat0|
      invariant Matches(str, pat) == Matches(str0, pat0)
      decreases |pat|
    {
      match pat[0]
      case '?' =>
        CharMatches(str, pat);
        if str == [] {
          return false;
        }
        str, pat := str[1..], pat[1..];
      case '*' =>
        StarMatches(str, pat);
        var here := WildCardMatch(str, pat[1..]);
        if here {
          return true;
        }
        if str != [] {
          var later := WildCardMatch(str[1..], pat);
          if later {
            return true;
          }
        }
        return false;
      case _ =>
        CharMatches(str, pat);
        if str == [] || str[0] != pat[0] {
          return false;
        }
        str, pat := str[1..], pat[1..];
    }
    EmptyMatches(str);
    return str == [];
  }

  // ----- levels -----

  datatype Level = Global | Trace | Debug | Fatal | Error | Warning | Verbose | Info | Unknown

  function Priority(level: Level): nat
  {
    match level
    case Fatal => 0
    case Error => 1
    case Warning => 2
    case Info => 3
    case Debug => 4
    case Verbose => 5
    case Trace => 6
    case _ => 7
  }

  function ToString(level: Level): string
  {
    match level
    case Global => "GLOBAL"
    case Debug => "DEBUG"
    case Info => "INFO"
    case Warning => "WARNING"
    case Error => "ERROR"
    case Fatal => "FATAL"
    case Verbose => "VERBOSE"
    case Trace => "TRACE"
    case Unknown => "UNKNOWN"
  }

  function FromPrefix(s: string): Level
  {
    if "GLOBAL" <= s || "global" <= s then Global
    else if "DEBUG" <= s || "debug" <= s then Debug
    else if "INFO" <= s || "info" <= s then Info
    else if "WARNING" <= s || "warning" <= s then Warning
    else if "ERROR" <= s || "error" <= s then Error
    else if "FATAL" <= s || "fatal" <= s then Fatal
    else if "VERBOSE" <= s || "verbose" <= s then Verbose
    else if "TRACE" <= s || "trace" <= s then Trace
    else Unknown
  }

  // ----- the category list -----

  datatype Category = Category(glob: string, level: Level)

  // The scanner of setCategories.
  datatype Scan = Scan(isCat: bool, isLevel: bool, ss: string, level: Level)

  const START := Scan(true, false, "", Unknown)

  predicate Complete(sc: Scan)
  {
    sc.ss != "" && sc.level != Unknown
  }

  function Parse(s: string, sc: Scan): seq<Category>
    decreases |s|
  {
    if s == "" then if Complete(sc) then [Category(sc.ss, sc.level)] else []
    else if s[0] == ':' then Parse(s[1..], sc.(isLevel := true, isCat := false))
    else if s[0] == ',' then
      if Complete(sc) then [Category(sc.ss, sc.level)] + Parse(s[1..], START)
      else Parse(s[1..], sc.(isLevel := false, isCat := true))
    else if sc.isCat then Parse(s[1..], sc.(ss := sc.ss + [s[0]]))
    else if sc.isLevel && FromPrefix(s) != Unknown then
      Parse(s[|ToString(FromPrefix(s))|..], sc.(level := FromPrefix(s)))
    else if sc.isLevel then Parse(s[1..], sc.(level := Unknown))
    else Parse(s[1..], sc)
  }

  // ----- what the scanner makes of a list of fields `glob:word,glob:word` -----

  datatype Field = Field(glob: string, word: string)

  predicate Plain(f: Field)
  {
    f.glob != "" && ':' !in f.glob && ',' !in f.glob && ':' !in f.word && ',' !in f.word
  }

  function Text1(f: Field): string
  {
    f.glob + ":" + f.word
  }

  function FieldText(fields: seq<Field>): string
  {
    if fields == [] then ""
    else Text1(fields[0]) + if |fields| == 1 then "" else "," + FieldText(fields[1..])
  }

  // The level a word stands for: its last name, if the word ends with it.
  function WordLevel(w: string, before: Level): Level
    decreases |w|
  {
    if w == "" then before
    else if FromPrefix(w) != Unknown then WordLevel(w[|ToString(FromPrefix(w))|..], FromPrefix(w))
    else WordLevel(w[1..], Unknown)
  }

  // A field without a level is no category of its own: its glob is put in front of the next one.
  function Glued(fields: seq<Field>, ss: string): seq<Category>
    decreases |fields|
  {
    if fields == [] then []
    else
      var level := WordLevel(fields[0].word, Unknown);
      if level != Unknown then [Category(ss + fields[0].glob, level)] + Glued(fields[1..], "")
      else Glued(fields[1..], ss + fields[0].glob)
  }

  lemma {:induction false} ScanGlob(g: string, rest: string, ss: string)
    requires ':' !in g && ',' !in g
    ensures Parse(g + rest, Scan(true, false, ss, Unknown)) == Parse(rest, Scan(true, false, ss + g, Unknown))
    decreases |g|
  {
    if g == "" {
      assert g + rest == rest && ss + g == ss;
    } else {
      assert (g + rest)[1..] == g[1..] + rest;
      assert (ss + [g[0]]) + g[1..] == ss + g;
      ScanGlob(g[1..], rest, ss + [g[0]]);
    }
  }

  // Nothing, or the comma before the next field.
  predicate Ends(tail: string)
  {
    tail == "" || tail[0] == ','
  }

  lemma ReachesComma(name: string, w: string, tail: string)
    requires Ends(tail) && name <= w + tail && |w| < |name|
    ensures ',' in name
  {
    assert name[|w|] == (w + tail)[|w|] && (w + tail)[|w|] == tail[0];
  }

  lemma PrefixWithin(name: string, w: string, tail: string)
    requires Ends(tail) && ',' !in name
    ensures name <= w + tail <==> name <= w
  {
    var s := w + tail;
    if name <= s && |name| <= |w| {
      assert forall k :: 0 <= k < |name| ==> name[k] == s[k] == w[k];
    }
    if name <= w {
      assert forall k :: 0 <= k < |name| ==> name[k] == w[k] == s[k];
    }
    if name <= s && |w| < |name| {
      ReachesComma(name, w, tail);
    }
  }

  lemma LevelWithin(w: string, tail: string)
    requires Ends(tail)
    ensures FromPrefix(w + tail) == FromPrefix(w)
    ensures FromPrefix(w) != Unknown ==> 0 < |ToString(FromPrefix(w))| <= |w|
  {
    PrefixWithin("GLOBAL", w, tail); PrefixWithin("global", w, tail);
    PrefixWithin("DEBUG", w, tail); PrefixWithin("debug", w, tail);
    PrefixWithin("INFO", w, tail); PrefixWithin("info", w, tail);
    PrefixWithin("WARNING", w, tail); PrefixWithin("warning", w, tail);
    PrefixWithin("ERROR", w, tail); PrefixWithin("error", w, tail);
    PrefixWithin("FATAL", w, tail); PrefixWithin("fatal", w, tail);
    PrefixWithin("VERBOSE", w, tail); PrefixWithin("verbose", w, tail);
    PrefixWithin("TRACE", w, tail); PrefixWithin("trace", w, tail);
  }

  lemma {:induction false} ScanWord(w: string, tail: string, ss: string, before: Level)
    requires ':' !in w && ',' !in w && Ends(tail)
    ensures Parse(w + tail, Scan(false, true, ss, before)) == Parse(tail, Scan(false, true, ss, WordLevel(w, before)))
    decreases |w|
  {
    if w == "" {
      assert w + tail == tail;
    } else {
      LevelWithin(w, tail);
      var level := FromPrefix(w);
      var n := if level != Unknown then |ToString(level)| else 1;
      assert (w + tail)[0] == w[0] && (w + tail)[n..] == w[n..] + tail;
      ScanWord(w[n..], tail, ss, level);
    }
  }

  lemma ScanField(f: Field, tail: string, ss: string)
    requires Plain(f) && Ends(tail)
    ensures Parse(Text1(f) + tail, Scan(true, false, ss, Unknown)) ==
            Parse(tail, Scan(false, true, ss + f.glob, WordLevel(f.word, Unknown)))
  {
    var rest := f.word + tail;
    assert Text1(f) + tail == f.glob + (":" + rest);
    ScanGlob(f.glob, ":" + rest, ss);
    assert (":" + rest)[0] == ':' && (":" + rest)[1..] == rest;
    ScanWord(f.word, tail, ss + f.glob, Unknown);
  }

  lemma ScanComma(more: string, ss: string, level: Level)
    requires ss != ""
    ensures Parse("," + more, Scan(false, true, ss, level)) ==
            if level != Unknown then [Category(ss, level)] + Parse(more, START) else Parse(more, Scan(true, false, ss, Unknown))
  {
    assert ("," + more)[0] == ',' && ("," + more)[1..] == more;
  }

  /** The scanner, on every list of fields with any words for levels: a field whose word is a level
      becomes a category, and any other field is glued to the next one. */
  lemma {:induction false} ParseFields(fields: seq<Field>, ss: string)
    requires forall i :: 0 <= i < |fields| ==> Plain(fields[i])
    ensures Parse(FieldText(fields), Scan(true, false, ss, Unknown)) == Glued(fields, ss)
    decreases |fields|
  {
    if fields == [] {
    } else {
      var f := fields[0];
      var level := WordLevel(f.word, Unknown);
      if |fields| == 1 {
        ScanField(f, "", ss);
        assert Text1(f) + "" == Text1(f);
      } else {
        var more := FieldText(fields[1..]);
        ScanField(f, "," + more, ss);
        ScanComma(more, ss + f.glob, level);
        ParseFields(fields[1..], if level != Unknown then "" else ss + f.glob);
      }
    }
  }

  lemma {:induction false} GluedCount(fields: seq<Field>, ss: string)
    ensures |Glued(fields, ss)| <= |fields|
    ensures |Glued(fields, ss)| == |fields| <==> forall i :: 0 <= i < |fields| ==> WordLevel(fields[i].word, Unknown) != Unknown
    decreases |fields|
  {
    if fields == [] {
    } else {
      var level := WordLevel(fields[0].word, Unknown);
      GluedCount(fields[1..], if level != Unknown then "" else ss + fields[0].glob);
    }
  }

  /** A list makes one category of each field if and only if every word is a level. */
  lemma EachFieldCountsIff(fields: seq<Field>)
    requires forall i :: 0 <= i < |fields| ==> Plain(fields[i])
    ensures |Parse(FieldText(fields), START)| == |fields| <==>
            forall i :: 0 <= i < |fields| ==> WordLevel(fields[i].word, Unknown) != Unknown
  {
    ParseFields(fields, "");
    GluedCount(fields, "");
  }

  // No level has a name of fewer than four letters.
  lemma {:induction false} ShortWord(w: string, before: Level)
    requires |w| < 4
    ensures WordLevel(w, before) == if w == "" then before else Unknown
    decreases |w|
  {
    if w == "" {
    } else {
      ShortWord(w[1..], Unknown);
    }
  }

  lemma TwoFields(f: Field, g: Field)
    ensures FieldText([f, g]) == Text1(f) + ("," + Text1(g))
  {
    assert [f, g][1..] == [g];
    assert Text1(g) + "" == Text1(g);
  }

  lemma GluedPair(f: Field, g: Field, level: Level)
    requires WordLevel(f.word, Unknown) == Unknown && WordLevel(g.word, Unknown) == level != Unknown
    ensures Glued([f, g], "") == [Category(f.glob + g.glob, level)]
  {
    assert [f, g][1..] == [g] && [g][1..] == [] && "" + f.glob == f.glob;
    assert Glued([g], f.glob) == [Category(f.glob + g.glob, level)] + Glued([], "");
  }

  /** A misspelt level does not drop its category: the glob joins the next one. */
  lemma MisspeltLevelGlues(g: string, h: string)
    requires Plain(Field(g, "NOPE")) && Plain(Field(h, "INFO"))
    ensures Parse((g + ":" + "NOPE") + ("," + (h + ":" + "INFO")), START) == [Category(g + h, Info)]
  {
    var f1, f2 := Field(g, "NOPE"), Field(h, "INFO");
    assert WordLevel("NOPE", Unknown) == Unknown by {
      ShortWord("NOPE"[1..], Unknown);
      assert "NOPE"[0] == 'N';
    }
    assert WordLevel("INFO", Unknown) == Info by { UpperName(Info); }
    GluedPair(f1, f2, Info);
    TwoFields(f1, f2);
    ParseFields([f1, f2], "");
  }

  // ----- the documented form -----

  function LowerName(level: Level): string
  {
    match level
    case Global => "global"
    case Debug => "debug"
    case Info => "info"
    case Warning => "warning"
    case Error => "error"
    case Fatal => "fatal"
    case Verbose => "verbose"
    case Trace => "trace"
    case Unknown => "unknown"
  }

  function Spelling(level: Level, lower: bool): string
  {
    if lower then LowerName(level) else ToString(level)
  }

  // A word that is one name and nothing else.
  lemma OneName(w: string, level: Level)
    requires w != "" && FromPrefix(w) == level != Unknown && |ToString(level)| == |w|
    ensures WordLevel(w, Unknown) == level
  {
    assert w[|w|..] == "";
  }

  lemma UpperName(level: Level)
    requires level != Unknown
    ensures WordLevel(ToString(level), Unknown) == level
  {
    var w := ToString(level);
    match level {
      case Global => assert w[0] == 'G';
      case Debug => assert w[0] == 'D';
      case Info => assert w[0] == 'I';
      case Warning => assert w[0] == 'W';
      case Error => assert w[0] == 'E';
      case Fatal => assert w[0] == 'F';
      case Verbose => assert w[0] == 'V';
      case Trace => assert w[0] == 'T';
    }
    OneName(w, level);
  }

  lemma SmallName(level: Level)
    requires level != Unknown
    ensures WordLevel(LowerName(level), Unknown) == level
  {
    var w := LowerName(level);
    match level {
      case Global => assert w[0] == 'g';
      case Debug => assert w[0] == 'd';
      case Info => assert w[0] == 'i';
      case Warning => assert w[0] == 'w';
      case Error => assert w[0] == 'e';
      case Fatal => assert w[0] == 'f';
      case Verbose => assert w[0] == 'v';
      case Trace => assert w[0] == 't';
    }
    OneName(w, level);
  }

  /** Both spellings of a level name are read as that level. */
  lemma NameIsLevel(level: Level, lower: bool)
    requires level != Unknown
    ensures WordLevel(Spelling(level, lower), Unknown) == level
  {
    if lower {
      SmallName(level);
    } else {
      UpperName(level);
    }
  }

  lemma NoMarks(level: Level, lower: bool)
    ensures ':' !in Spelling(level, lower) && ',' !in Spelling(level, lower)
  {}

  datatype Listed = Listed(cat: Category, lower: bool)

  function AsField(l: Listed): Field
  {
    Field(l.cat.glob, Spelling(l.cat.level, l.lower))
  }

  function AsFields(list: seq<Listed>): (fields: seq<Field>)
    ensures |fields| == |list| && forall i :: 0 <= i < |list| ==> fields[i] == AsField(list[i])
  {
    if list == [] then [] else [AsField(list[0])] + AsFields(list[1..])
  }

  function Categories(list: seq<Listed>): (cats: seq<Category>)
    ensures |cats| == |list| && forall i :: 0 <= i < |list| ==> cats[i] == list[i].cat
  {
    if list == [] then [] else [list[0].cat] + Categories(list[1..])
  }

  predicate Listable(cat: Category)
  {
    cat.glob != "" && ':' !in cat.glob && ',' !in cat.glob && cat.level != Unknown
  }

  lemma {:induction false} GluedListed(list: seq<Listed>)
    requires forall i :: 0 <= i < |list| ==> Listable(list[i].cat)
    ensures Glued(AsFields(list), "") == Categories(list)
    decreases |list|
  {
    if list == [] {
    } else {
      var f := AsField(list[0]);
      assert WordLevel(f.word, Unknown) == list[0].cat.level by { NameIsLevel(list[0].cat.level, list[0].lower); }
      assert AsFields(list)[1..] == AsFields(list[1..]) && "" + f.glob == f.glob;
      GluedListed(list[1..]);
    }
  }

  /** Parsing is inverse to the documented form `glob:LEVEL,glob:level`, in either spelling: it gives
      back the listed categories, in order. */
  lemma {:induction false} ParseFormat(list: seq<Listed>)
    requires forall i :: 0 <= i < |list| ==> Listable(list[i].cat)
    ensures Parse(FieldText(AsFields(list)), START) == Categories(list)
  {
    forall i | 0 <= i < |list|
      ensures Plain(AsFields(list)[i])
    {
      NoMarks(list[i].cat.level, list[i].lower);
    }
    ParseFields(AsFields(list), "");
    GluedListed(list);
  }

  // ----- the rule, and the registry that caches it -----

  // A std::string as a C string.
  function CStr(s: string): string
  {
    if s == "" || s[0] == '\0' then "" else [s[0]] + CStr(s[1..])
  }

  // The priority granted to a category: that of the last glob that matches it, or -1.
  ghost function Granted(cats: seq<Category>, category: string): int
  {
    if cats == [] then -1
    else
      var last := cats[|cats| - 1];
      if Matches(CStr(category), last.glob) then Priority(last.level) else Granted(cats[..|cats| - 1], category)
  }

  // The uncached rule.
  ghost predicate Rule(cats: seq<Category>, level: Level, category: string)
  {
    Priority(level) <= Granted(cats, category)
  }

  // ----- the rule in terms of levels -----

  // From the most to the least severe; any other level counts as less severe than all of them.
  const SEVERITY: seq<Level> := [Fatal, Error, Warning, Info, Debug, Verbose, Trace]

  ghost predicate AtLeastAsSevere(m: Level, l: Level)
  {
    l !in SEVERITY || exists i, j :: 0 <= i <= j < |SEVERITY| && SEVERITY[i] == m && SEVERITY[j] == l
  }

  // The newest category that matches is number `k`.
  ghost predicate LastMatch(cats: seq<Category>, category: string, k: nat)
  {
    && k < |cats| && Matches(CStr(category), cats[k].glob)
    && forall j :: k < j < |cats| ==> !Matches(CStr(category), cats[j].glob)
  }

  lemma PriorityIsPosition(l: Level)
    ensures Priority(l) <= |SEVERITY|
    ensures Priority(l) < |SEVERITY| <==> l in SEVERITY
    ensures l in SEVERITY ==> SEVERITY[Priority(l)] == l
    ensures forall i :: 0 <= i < |SEVERITY| && SEVERITY[i] == l ==> i == Priority(l)
  {
    assert l in SEVERITY ==> SEVERITY[Priority(l)] == l;
  }

  lemma SeverityOrder(m: Level, l: Level)
    ensures Priority(m) <= Priority(l) <==> AtLeastAsSevere(m, l)
  {
    PriorityIsPosition(m);
    PriorityIsPosition(l);
    if l in SEVERITY && Priority(m) <= Priority(l) {
      assert SEVERITY[Priority(m)] == m && SEVERITY[Priority(l)] == l;
    }
  }

  /** A message of level `m` is let through if and only if some category matches and the last one
      that does has a level which `m` is at least as severe as. */
  lemma {:induction false} RuleBySeverity(cats: seq<Category>, m: Level, category: string)
    ensures Rule(cats, m, category) <==> exists k: nat :: LastMatch(cats, category, k) && AtLeastAsSevere(m, cats[k].level)
    decreases |cats|
  {
    if cats == [] {
    } else {
      var n := |cats| - 1;
      var older := cats[..n];
      if Matches(CStr(category), cats[n].glob) {
        SeverityOrder(m, cats[n].level);
        assert forall k: nat :: LastMatch(cats, category, k) <==> k == n;
      } else {
        RuleBySeverity(older, m, category);
        forall k: nat
          ensures LastMatch(cats, category, k) <==> LastMatch(older, category, k)
        {
          LastMatchOlder(cats, category, k);
        }
      }
    }
  }

  lemma LastMatchOlder(cats: seq<Category>, category: string, k: nat)
    requires cats != [] && !Matches(CStr(category), cats[|cats| - 1].glob)
    ensures LastMatch(cats, category, k) <==> LastMatch(cats[..|cats| - 1], category, k)
  {
    var older := cats[..|cats| - 1];
    assert forall j :: 0 <= j < |older| ==> older[j] == cats[j];
    if LastMatch(older, category, k) {
      forall j | k < j < |cats|
        ensures !Matches(CStr(category), cats[j].glob)
      {
        assert j < |older| ==> older[j] == cats[j];
      }
    }
    if LastMatch(cats, category, k) {
      assert k != |cats| - 1;
    }
  }

  /** The text a C string has: everything before the first NUL. */
  lemma {:induction false} CStrExact(s: string)
    ensures CStr(s) <= s && '\0' !in CStr(s)
    ensures |CStr(s)| < |s| ==> s[|CStr(s)|] == '\0'
    decreases |s|
  {
    if s == "" || s[0] == '\0' {
    } else {
      CStrExact(s[1..]);
    }
  }

  const INT_MAX: int := 0x7FFF_FFFF

  datatype Text = NullText | Text(s: string)

  class VRegistry {
    var categories: seq<Category>
    var cached: map<string, int>
    var lowestPriority: int

    constructor ()
      ensures Valid() && categories == []
    {
      categories, cached, lowestPriority := [], map[], INT_MAX;
    }

    ghost predicate Valid()
      reads this
    {
      && lowestPriority >= 0
      && (forall i :: 0 <= i < |categories| ==> Priority(categories[i].level) <= lowestPriority)
      && (forall k :: k in cached ==> cached[k] == Granted(categories, k))
    }

    method ClearCategories()
      modifies this
      ensures Valid() && categories == []
    {
      categories, cached, lowestPriority := [], map[], INT_MAX;
    }

    method Insert(cat: Category)
      requires Valid()
      modifies this
      ensures Valid() && categories == old(categories) + [cat]
    {
      categories := categories + [cat];
      cached := map[];
      if Priority(cat.level) > lowestPriority {
        lowestPriority := Priority(cat.level);
      }
    }

    method SetCategories(text: Text, clear: bool)
      requires Valid()
      modifies this
      ensures Valid()
      ensures categories == (if clear then [] else old(categories)) + if text.Text? then Parse(text.s, START) else []
    {
      if clear {
        lowestPriority, categories, cached := 0, [], map[];
      }
      if text.NullText? {
        return;
      }
      ghost var base := categories;
      var s := text.s;
      var isCat, isLevel, ss, level := true, false, "", Unknown;
      while s != ""
        invariant Valid()
        invariant categories + Parse(s, Scan(isCat, isLevel, ss, level)) == base + Parse(text.s, START)
        decreases |s|
      {
        var skip := 1;
        if s[0] == ':' {
          isLevel, isCat := true, false;
        } else if s[0] == ',' {
          isLevel, isCat := false, true;
          if ss != "" && level != Unknown {
            Insert(Category(ss, level));
            ss, level := "", Unknown;
          }
        } else if isCat {
          ss := ss + [s[0]];
        } else if isLevel {
          level := FromPrefix(s);
          if level != Unknown {
            skip := |ToString(level)|;
          }
        }
        s := s[skip..];
      }
      if ss != "" && level != Unknown {
        Insert(Category(ss, level));
      }
    }

    /** `allowed`: the early exit, then the cache, then the search from the newest category. */
    method Allowed(level: Level, category: string) returns (r: bool)
      requires Valid()
      modifies this`cached
      ensures Valid() && r == Rule(categories, level, category)
    {
      var pri := Priority(level);
      if pri > lowestPriority {
        GrantedBound(categories, category, lowestPriority);
        return false;
      }
      if category in cached {
        return pri <= cached[category];
      }
      if categories == [] {
        return false;
      }
      var name := ToCStr(category);
      var i := |categories|;
      assert categories[..i] == categories;
      while i > 0
        invariant 0 <= i <= |categories| && cached == old(cached)
        invariant Granted(categories, category) == Granted(categories[..i], category)
      {
        i := i - 1;
        assert categories[..i + 1][..i] == categories[..i];
        var hit := WildCardMatch(name, categories[i].glob);
        if hit {
          var p := Priority(categories[i].level);
          cached := cached[category := p];
          return pri <= p;
        }
      }
      cached := cached[category := -1];
      return false;
    }
  }

  method ToCStr(s: string) returns (r: string)
    ensures r == CStr(s)
  {
    r := CStr(s);
  }

  lemma {:induction false} GrantedBound(cats: seq<Category>, category: string, lowest: int)
    requires lowest >= 0 && forall i :: 0 <= i < |cats| ==> Priority(cats[i].level) <= lowest
    ensures Granted(cats, category) <= lowest
    decreases |cats|
  {
    if cats == [] {
    } else {
      GrantedBound(cats[..|cats| - 1], category, lowest);
    }
  }

  // ----- whole histories of the registry -----

  datatype Use = Configure(text: Text, clear: bool) | Reset | Ask(level: Level, category: string)

  ghost function Expected(cats: seq<Category>, uses: seq<Use>): seq<bool>
    decreases |uses|
  {
    if uses == [] then []
    else
      match uses[0]
      case Configure(text, clear) =>
        Expected((if clear then [] else cats) + if text.Text? then Parse(text.s, START) else [], uses[1..])
      case Reset => Expected([], uses[1..])
      case Ask(level, category) => [Rule(cats, level, category)] + Expected(cats, uses[1..])
  }

  /** Over every history of configuring, resetting and asking, the cached registry with its early
      exit answers as the uncached rule does. */
  method Answers(uses: seq<Use>) returns (answers: seq<bool>)
    ensures answers == Expected([], uses)
  {
    var registry := new VRegistry();
    answers := [];
    var i := 0;
    assert uses[0..] == uses;
    while i < |uses|
      invariant 0 <= i <= |uses|
      invariant registry.Valid() && fresh(registry)
      invariant answers + Expected(registry.categories, uses[i..]) == Expected([], uses)
    {
      assert uses[i..][1..] == uses[i + 1..];
      match uses[i] {
        case Configure(text, clear) => registry.SetCategories(text, clear);
        case Reset => registry.ClearCategories();
        case Ask(level, category) =>
          var r := registry.Allowed(level, category);
          answers := answers + [r];
      }
      i := i + 1;
    }
  }
}
