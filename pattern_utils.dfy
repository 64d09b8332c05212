/**
 * `gitingest/utils/pattern_utils.py`: user patterns are split on commas and spaces, empty
 * pieces dropped, backslashes turned into slashes, and every piece checked against the
 * allowed characters; include patterns are then taken out of the ignore set.
 */
module PatternUtils {
  import opened Wrappers
  import opened Strings

  /** The characters `re.split(",| ", p)` splits at. */
  const SEPARATORS: set<char> := {',', ' '}

  /** The characters a pattern may hold besides letters and digits. */
  const PATTERN_PUNCTUATION: set<char> := {'-', '_', '.', '/', '+', '*', '@'}

  /** `str.isalnum()` on one character, restricted to ASCII. */
  predicate IsAlnum(c: char)
  {
    'a' <= c <= 'z' || 'A' <= c <= 'Z' || '0' <= c <= '9'
  }

  /** `_is_valid_pattern`. */
  predicate IsValidPattern(p: string)
  {
    forall i :: 0 <= i < |p| ==> IsAlnum(p[i]) || p[i] in PATTERN_PUNCTUATION
  }

  /** A valid pattern holds no separator, no backslash and no shell punctuation such as ';'. */
  lemma ValidPatternIsPlain(p: string)
    requires IsValidPattern(p)
    ensures Avoids(p, SEPARATORS + {'\\', ';', '|', '&', '$', '`'})
  {
  }

  /** The pattern argument: a string, a set of strings, or nothing. */
  datatype PatternArg = NoPatterns | Text(text: string) | Patterns(patterns: set<string>)

  /** Python truthiness of the argument. */
  predicate Given(a: PatternArg)
  {
    (a.Text? && a.text != "") || (a.Patterns? && a.patterns != {})
  }

  /** `pattern if isinstance(pattern, set) else {pattern}`. */
  function Inputs(a: PatternArg): set<string>
  {
    match a
    case NoPatterns => {}
    case Text(t) => {t}
    case Patterns(ps) => ps
  }

  /** `p.replace("\\", "/")`. */
  function ForwardSlashes(p: string): (r: string)
    ensures |r| == |p|
    ensures forall i :: 0 <= i < |p| ==> r[i] == (if p[i] == '\\' then '/' else p[i])
  {
    seq(|p|, i requires 0 <= i < |p| => if p[i] == '\\' then '/' else p[i])
  }

  /** Every non-empty piece of every input, in its slash-normalised form. */
  function Normalised(inputs: set<string>): set<string>
  {
    set p, x | p in inputs && x in SplitOn(p, SEPARATORS) && x != "" :: ForwardSlashes(x)
  }

  /** `_parse_patterns`: the normalised pieces, or the pieces that fail validation. */
  function ParsePatterns(a: PatternArg): Result<set<string>, set<string>>
  {
    var parsed := Normalised(Inputs(a));
    var invalid := set p | p in parsed && !IsValidPattern(p);
    if invalid == {} then Ok(parsed) else Err(invalid)
  }

  /**
   * A parse succeeds exactly when every normalised piece is valid; it then returns every
   * non-empty piece of every input, normalised, and nothing else, and no result is empty or
   * holds a comma, a space or a backslash. A failed parse names only invalid pieces, and at least one.
   */
  lemma ParsePatternsFacts(a: PatternArg)
    ensures ParsePatterns(a).Ok? <==> forall p :: p in Normalised(Inputs(a)) ==> IsValidPattern(p)
    ensures ParsePatterns(a).Ok? ==>
      && (forall input, x :: input in Inputs(a) && x in SplitOn(input, SEPARATORS) && x != "" ==>
            ForwardSlashes(x) in ParsePatterns(a).value)
      && (forall p :: p in ParsePatterns(a).value ==>
            exists input, x :: input in Inputs(a) && x in SplitOn(input, SEPARATORS) && x != "" && p == ForwardSlashes(x))
      && (forall p :: p in ParsePatterns(a).value ==>
            p != "" && IsValidPattern(p) && Avoids(p, SEPARATORS + {'\\'}))
    ensures ParsePatterns(a).Err? ==>
      && ParsePatterns(a).error != {}
      && forall p :: p in ParsePatterns(a).error ==> p in Normalised(Inputs(a)) && !IsValidPattern(p)
  {
    var parsed := Normalised(Inputs(a));
    NormalisedFacts(Inputs(a));
    var invalid := set p | p in parsed && !IsValidPattern(p);
    forall p | p in parsed ensures IsValidPattern(p) || p in invalid {
    }
    if invalid != {} {
      var p :| p in invalid;
      assert p in parsed && !IsValidPattern(p);
    }
  }

  /** Every non-empty piece of every input is in the normalised set, and each member is a non-empty piece without separators. */
  lemma NormalisedFacts(inputs: set<string>)
    ensures forall input, x :: input in inputs && x in SplitOn(input, SEPARATORS) && x != "" ==>
      ForwardSlashes(x) in Normalised(inputs)
    ensures forall p :: p in Normalised(inputs) ==> p != "" && Avoids(p, SEPARATORS)
  {
    forall p | p in Normalised(inputs)
      ensures p != "" && Avoids(p, SEPARATORS)
    {
      var input, x :| input in inputs && x in SplitOn(input, SEPARATORS) && x != "" && p == ForwardSlashes(x);
      SplitOnPieces(input, SEPARATORS);
      var k :| 0 <= k < |SplitOn(input, SEPARATORS)| && SplitOn(input, SEPARATORS)[k] == x;
      assert Avoids(x, SEPARATORS);
    }
  }

  /** `process_patterns`: the ignore set and the include set, or the invalid pieces of the first argument that fails. */
  function ProcessPatterns(excludeArg: PatternArg, includeArg: PatternArg, defaults: set<string>)
    : Result<(set<string>, Option<set<string>>), set<string>>
  {
    var excluded := if Given(excludeArg) then ParsePatterns(excludeArg) else Ok({});
    if excluded.Err? then Err(excluded.error)
    else
      var ignore := defaults + excluded.value;
      if !Given(includeArg) then Ok((ignore, None))
      else
        var included := ParsePatterns(includeArg);
        if included.Err? then Err(included.error)
        else Ok((ignore - included.value, Some(included.value)))
  }

  /**
   * Without includes the ignore set is the defaults plus the parsed excludes and no includeArg set
   * is returned; with includes, the parsed includes are returned and none of them stays in the
   * ignore set, while every other default or excludeArg does; the call fails exactly when a given
   * argument fails to parse.
   */
  lemma ProcessPatternsFacts(excludeArg: PatternArg, includeArg: PatternArg, defaults: set<string>)
    ensures var r := ProcessPatterns(excludeArg, includeArg, defaults);
      && (r.Err? <==> (Given(excludeArg) && ParsePatterns(excludeArg).Err?) || (Given(includeArg) && ParsePatterns(includeArg).Err?))
      && (r.Ok? ==>
            var excludes := if Given(excludeArg) then ParsePatterns(excludeArg).value else {};
            && (!Given(includeArg) ==> r.value == (defaults + excludes, None))
            && (Given(includeArg) ==>
                  && r.value.1 == Some(ParsePatterns(includeArg).value)
                  && (forall p :: p in ParsePatterns(includeArg).value ==> p !in r.value.0)
                  && (forall p :: p in defaults + excludes && p !in ParsePatterns(includeArg).value ==> p in r.value.0)
                  && r.value.0 <= defaults + excludes))
  {
  }

  /** Without backslashes, one input normalises to its non-empty pieces. */
  lemma NormalisedPieces(input: string, pieces: seq<string>)
    requires SplitOn(input, SEPARATORS) == pieces
    requires forall k :: 0 <= k < |pieces| ==> Avoids(pieces[k], {'\\'})
    ensures Normalised({input}) == set k | 0 <= k < |pieces| && pieces[k] != "" :: pieces[k]
  {
    var lhs := Normalised({input});
    var rhs := set k | 0 <= k < |pieces| && pieces[k] != "" :: pieces[k];
    forall p | p in lhs ensures p in rhs {
      var i, x :| i in {input} && x in SplitOn(i, SEPARATORS) && x != "" && p == ForwardSlashes(x);
      var k :| 0 <= k < |pieces| && pieces[k] == x;
      assert ForwardSlashes(x) == x;
    }
    forall p | p in rhs ensures p in lhs {
      var k :| 0 <= k < |pieces| && pieces[k] != "" && p == pieces[k];
      assert ForwardSlashes(pieces[k]) == pieces[k];
      assert pieces[k] in SplitOn(input, SEPARATORS);
    }
  }

  /** Two separator-free words around one separator split into exactly those two words. */
  lemma TwoPieces(a: string, c: char, b: string)
    requires Avoids(a, SEPARATORS) && Avoids(b, SEPARATORS) && c in SEPARATORS
    ensures SplitOn(a + [c] + b, SEPARATORS) == [a, b]
  {
    SplitOnAt(a, c, b, SEPARATORS);
    SplitOnNone(a, SEPARATORS);
    SplitOnNone(b, SEPARATORS);
  }

  /** A ", "-separated list of three words splits into the words with an empty piece after each comma. */
  lemma CommaSpacePieces(a: string, b: string, c: string)
    requires Avoids(a, SEPARATORS) && Avoids(b, SEPARATORS) && Avoids(c, SEPARATORS)
    ensures SplitOn(a + ", " + b + ", " + c, SEPARATORS) == [a, "", b, "", c]
  {
    var rest := b + [','] + ("" + [' '] + c);
    assert a + ", " + b + ", " + c == a + [','] + ("" + [' '] + rest);
    SplitOnAt(a, ',', "" + [' '] + rest, SEPARATORS);
    SplitOnAt("", ' ', rest, SEPARATORS);
    SplitOnAt(b, ',', "" + [' '] + c, SEPARATORS);
    SplitOnAt("", ' ', c, SEPARATORS);
    SplitOnNone(a, SEPARATORS);
    SplitOnNone(b, SEPARATORS);
    SplitOnNone(c, SEPARATORS);
    SplitOnNone("", SEPARATORS);
  }


  /** A ", "-separated list of three valid words parses to the set of those words. */
  lemma ParseCommaSpaceList(a: string, b: string, c: string)
    requires a != "" && b != "" && c != ""
    requires IsValidPattern(a) && IsValidPattern(b) && IsValidPattern(c)
    ensures ParsePatterns(Text(a + ", " + b + ", " + c)) == Ok({a, b, c})
  {
    CommaSpaceNormalised(a, b, c);
    ParseOfPieces(Text(a + ", " + b + ", " + c), {a, b, c});
  }

  /** The parse of an argument whose normalised pieces are known and all valid. */
  lemma ParseOfPieces(arg: PatternArg, pieces: set<string>)
    requires Normalised(Inputs(arg)) == pieces && forall p :: p in pieces ==> IsValidPattern(p)
    ensures ParsePatterns(arg) == Ok(pieces)
  {
    assert (set p | p in pieces && !IsValidPattern(p)) == {};
  }

  lemma CommaSpaceNormalised(a: string, b: string, c: string)
    requires a != "" && b != "" && c != ""
    requires IsValidPattern(a) && IsValidPattern(b) && IsValidPattern(c)
    ensures Normalised({a + ", " + b + ", " + c}) == {a, b, c}
  {
    ValidPatternIsPlain(a);
    ValidPatternIsPlain(b);
    ValidPatternIsPlain(c);
    CommaSpacePieces(a, b, c);
    NormalisedPieces(a + ", " + b + ", " + c, [a, "", b, "", c]);
    NonEmptyOfFive(a, b, c);
  }

  lemma NonEmptyOfFive(a: string, b: string, c: string)
    requires a != "" && b != "" && c != ""
    ensures var pieces := [a, "", b, "", c];
      (set k | 0 <= k < |pieces| && pieces[k] != "" :: pieces[k]) == {a, b, c}
  {
    var pieces := [a, "", b, "", c];
    var found := set k | 0 <= k < |pieces| && pieces[k] != "" :: pieces[k];
    forall p | p in found ensures p in {a, b, c} {
      var k :| 0 <= k < |pieces| && pieces[k] != "" && p == pieces[k];
    }
    assert pieces[0] in found && pieces[2] in found && pieces[4] in found;
  }

  /** A comma-and-space separated list parses to the three patterns it names. */
  lemma ParseListExample()
    ensures ParsePatterns(Text("*.py, *.md, docs/*")) == Ok({"*.py", "*.md", "docs/*"})
  {
    assert "*.py, *.md, docs/*" == "*.py" + ", " + "*.md" + ", " + "docs/*";
    ParseCommaSpaceList("*.py", "*.md", "docs/*");
  }


  /** Of two space-separated words, an invalid first one and a valid second one, the first is refused. */
  lemma ParseSpacedPair(a: string, b: string)
    requires a != "" && Avoids(a, SEPARATORS) && Avoids(a, {'\\'}) && !IsValidPattern(a)
    requires b != "" && IsValidPattern(b)
    ensures ParsePatterns(Text(a + " " + b)) == Err({a})
  {
    ValidPatternIsPlain(b);
    var input := a + " " + b;
    var pieces := [a, b];
    assert input == a + [' '] + b;
    TwoPieces(a, ' ', b);
    NormalisedPieces(input, pieces);
    var parsed := Normalised({input});
    assert parsed == {a, b} by {
      forall p | p in parsed ensures p in {a, b} {
        var k :| 0 <= k < |pieces| && pieces[k] != "" && p == pieces[k];
      }
      assert pieces[0] in parsed && pieces[1] in parsed;
    }
    assert (set p | p in parsed && !IsValidPattern(p)) == {a};
  }

  /** A pattern list with a ';' in it is refused, naming the piece that holds the ';'. */
  lemma ParseInjectionExample()
    ensures ParsePatterns(Text("*.py;rm -rf")) == Err({"*.py;rm"})
  {
    assert "*.py;rm"[4] == ';';
    assert "*.py;rm -rf" == "*.py;rm" + " " + "-rf";
    ParseSpacedPair("*.py;rm", "-rf");
  }

  /** Empty arguments leave the defaults as the ignore set and give no includeArg set. */
  lemma EmptyArgumentsExample(defaults: set<string>)
    ensures ProcessPatterns(Text(""), Text(""), defaults) == Ok((defaults, None))
  {
    assert defaults + {} == defaults;
  }

  /** A set of separator-free, backslash-free words parses to itself. */
  lemma ParsePlainSet(ps: set<string>)
    requires forall p :: p in ps ==> p != "" && IsValidPattern(p)
    ensures ParsePatterns(Patterns(ps)) == Ok(ps)
  {
    var parsed := Normalised(ps);
    forall p | p in parsed ensures p in ps {
      var input, x :| input in ps && x in SplitOn(input, SEPARATORS) && x != "" && p == ForwardSlashes(x);
      ValidPatternIsPlain(input);
      SplitOnNone(input, SEPARATORS);
      assert ForwardSlashes(input) == input;
    }
    forall p | p in ps ensures p in parsed {
      ValidPatternIsPlain(p);
      SplitOnNone(p, SEPARATORS);
      assert ForwardSlashes(p) == p;
      assert p in SplitOn(p, SEPARATORS);
    }
    assert parsed == ps;
    assert (set p | p in parsed && !IsValidPattern(p)) == {};
  }

  /** Two valid words given as a set parse to themselves. */
  lemma ParsePlainPair(a: string, b: string)
    requires a != "" && IsValidPattern(a)
    requires b != "" && IsValidPattern(b)
    ensures ParsePatterns(Patterns({a, b})) == Ok({a, b})
  {
    ParsePlainSet({a, b});
  }

  /** A single valid word given as a string parses to itself. */
  lemma ParsePlainWord(w: string)
    requires w != "" && IsValidPattern(w)
    ensures ParsePatterns(Text(w)) == Ok({w})
  {
    assert ParsePatterns(Patterns({w})) == Ok({w}) by {
      ParsePlainSet({w});
    }
    assert ParsePatterns(Text(w)) == ParsePatterns(Patterns({w})) by {
      SameInputsSameParse(Text(w), Patterns({w}));
    }
  }

  lemma SameInputsSameParse(a: PatternArg, b: PatternArg)
    requires Inputs(a) == Inputs(b)
    ensures ParsePatterns(a) == ParsePatterns(b)
  {
  }

  /** An include pattern that is also ignored is taken out of the ignore set; another ignored pattern stays. */
  lemma IncludeOverridesIgnore(a: string, b: string, excludeArg: PatternArg, includeArg: PatternArg, defaults: set<string>)
    requires a != b && Given(excludeArg) && Given(includeArg)
    requires ParsePatterns(excludeArg) == Ok({a, b}) && ParsePatterns(includeArg) == Ok({a})
    ensures var r := ProcessPatterns(excludeArg, includeArg, defaults);
      && r.Ok? && r.value.1 == Some({a}) && a !in r.value.0 && b in r.value.0
  {
    ProcessPatternsFacts(excludeArg, includeArg, defaults);
    assert a in {a} && b in defaults + {a, b} && b !in {a};
  }

  /** Including one of two ignored words, given as a string, takes that word out of the ignore set and keeps the other. */
  lemma IncludeWordOverridesIgnore(a: string, b: string, defaults: set<string>)
    requires a != b
    requires a != "" && IsValidPattern(a)
    requires b != "" && IsValidPattern(b)
    ensures var r := ProcessPatterns(Patterns({a, b}), Text(a), defaults);
      && r.Ok? && r.value.1 == Some({a}) && a !in r.value.0 && b in r.value.0
  {
    ParsePlainPair(a, b);
    ParsePlainWord(a);
    IncludeOverridesIgnore(a, b, Patterns({a, b}), Text(a), defaults);
  }

  /** Including "*.py" while ignoring "*.py" and "*.txt" keeps only "*.txt" of the two. */
  lemma IncludeOverridesIgnoreExample(defaults: set<string>)
    ensures var r := ProcessPatterns(Patterns({"*.py", "*.txt"}), Text("*.py"), defaults);
      && r.Ok? && r.value.1 == Some({"*.py"}) && "*.py" !in r.value.0 && "*.txt" in r.value.0
  {
    IncludeWordOverridesIgnore("*.py", "*.txt", defaults);
  }
}
