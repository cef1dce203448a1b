/**
 * The word-to-vector dictionary and the stopword set shared by the console
 * tool (SP_TEST_02.java) and the prediction server (SP_TEST_03.java): how
 * their files are read line by line, and how a sentence is turned into the
 * space-separated list of vectors of its known, non-stopword words.
 *
 * Files are given as their sequence of lines; lowercasing is the parameter
 * `lower`, standing for `String.toLowerCase`.
 */
module Lexicon {
  import opened Wrappers
  import opened JavaText

  // ---------------------------------------------------------------- dictionary lines

  /** A dictionary line yields a (word, vector) pair only when splitting it on '#' gives exactly two parts. */
  function ParseDictLine(line: string): (r: Option<(string, string)>)
    ensures r.Some? ==> '#' !in r.value.0 && '#' !in r.value.1
  {
    var parts := JavaSplit(line, '#');
    if |parts| == 2 then Some((parts[0], parts[1])) else None
  }

  /** `word#vector`, followed by any number of '#', is accepted as that pair. */
  lemma DictLineAccepted(word: string, vector: string, m: nat)
    requires '#' !in word && '#' !in vector && vector != []
    ensures ParseDictLine(word + "#" + vector + Repeat('#', m)) == Some((word, vector))
  {
    SplitPairOf(word, vector, m, '#');
  }

  /**
   * Every accepted line has that shape: a word and a non-empty vector, both
   * free of '#', joined by '#' and followed only by '#'s. A line with no '#',
   * with an empty vector, or with a '#' inside the vector is ignored.
   */
  lemma DictLineShape(line: string)
    requires ParseDictLine(line).Some?
    ensures var (word, vector) := ParseDictLine(line).value;
            && '#' !in word && '#' !in vector && vector != []
            && exists m: nat :: line == word + "#" + vector + Repeat('#', m)
  {
    SplitPairShape(line, '#');
  }

  /** The outcome of parsing each line, in order. */
  function Parsed(lines: seq<string>): (r: seq<Option<(string, string)>>)
    ensures |r| == |lines| && forall i :: 0 <= i < |lines| ==> r[i] == ParseDictLine(lines[i])
  {
    seq(|lines|, i requires 0 <= i < |lines| => ParseDictLine(lines[i]))
  }

  /** dict after storing the accepted pairs in order, each overwriting its word's entry. */
  function Apply(dict: map<string, string>, entries: seq<Option<(string, string)>>): (r: map<string, string>)
    ensures dict.Keys <= r.Keys
  {
    if entries == [] then dict
    else
      var before := Apply(dict, entries[..|entries| - 1]);
      match entries[|entries| - 1]
      case Some((word, vector)) => before[word := vector]
      case None => before
  }

  /** The dictionary after reading lines, in order, into dict. */
  function Loaded(dict: map<string, string>, lines: seq<string>): map<string, string>
  {
    Apply(dict, Parsed(lines))
  }

  /** Whether entry i is an accepted pair for the given word. */
  ghost predicate Defines(entries: seq<Option<(string, string)>>, i: int, word: string)
  {
    0 <= i < |entries| && entries[i].Some? && entries[i].value.0 == word
  }

  /** A word is in the dictionary exactly when it was already there or some entry is a pair for it. */
  lemma {:induction false} ApplyKeys(dict: map<string, string>, entries: seq<Option<(string, string)>>, word: string)
    ensures word in Apply(dict, entries) <==> word in dict || exists i :: Defines(entries, i, word)
  {
    if entries != [] {
      var n := |entries| - 1;
      ApplyKeys(dict, entries[..n], word);
      if !Defines(entries, n, word) {
        if exists i :: Defines(entries, i, word) {
          var i :| Defines(entries, i, word);
          assert Defines(entries[..n], i, word);
        }
        if exists i :: Defines(entries[..n], i, word) {
          var i :| Defines(entries[..n], i, word);
          assert Defines(entries, i, word);
        }
      }
    }
  }

  /** A later pair for the same word wins: a word's entry is the vector of the last pair for it. */
  lemma {:induction false} ApplyLastWins(dict: map<string, string>, entries: seq<Option<(string, string)>>, i: int)
    requires 0 <= i < |entries| && entries[i].Some?
    requires forall j :: i < j < |entries| ==> !Defines(entries, j, entries[i].value.0)
    ensures entries[i].value.0 in Apply(dict, entries)
    ensures Apply(dict, entries)[entries[i].value.0] == entries[i].value.1
  {
    var n := |entries| - 1;
    if i < n {
      forall j | i < j < n
        ensures !Defines(entries[..n], j, entries[i].value.0)
      {
        assert !Defines(entries, j, entries[i].value.0);
      }
      ApplyLastWins(dict, entries[..n], i);
      assert !Defines(entries, n, entries[i].value.0);
    }
  }

  /** A word no entry is a pair for keeps its earlier entry. */
  lemma {:induction false} ApplyKeepsOthers(dict: map<string, string>, entries: seq<Option<(string, string)>>, word: string)
    requires word in dict
    requires forall j :: 0 <= j < |entries| ==> !Defines(entries, j, word)
    ensures word in Apply(dict, entries) && Apply(dict, entries)[word] == dict[word]
  {
    if entries != [] {
      var n := |entries| - 1;
      forall j | 0 <= j < n
        ensures !Defines(entries[..n], j, word)
      {
        assert !Defines(entries, j, word);
      }
      ApplyKeepsOthers(dict, entries[..n], word);
      assert !Defines(entries, n, word);
    }
  }

  // ---------------------------------------------------------------- stopword lines

  /** The stopword set after reading lines, in order, into stop: each line is added trimmed. */
  function WithStopwords(stop: set<string>, lines: seq<string>): (r: set<string>)
    ensures stop <= r
    ensures |lines| > 0 ==> Trim(lines[|lines| - 1]) in r
  {
    if lines == [] then stop else WithStopwords(stop, lines[..|lines| - 1]) + {Trim(lines[|lines| - 1])}
  }

  /** A word is a stopword after reading lines exactly when it was one before or it is the trim of some line. */
  lemma {:induction false} StopwordsMembers(stop: set<string>, lines: seq<string>, w: string)
    ensures w in WithStopwords(stop, lines) <==> w in stop || exists i :: 0 <= i < |lines| && Trim(lines[i]) == w
  {
    if lines != [] {
      var n := |lines| - 1;
      StopwordsMembers(stop, lines[..n], w);
      if Trim(lines[n]) != w {
        if exists i :: 0 <= i < |lines| && Trim(lines[i]) == w {
          var i :| 0 <= i < |lines| && Trim(lines[i]) == w;
          assert Trim(lines[..n][i]) == w;
        }
        if exists i :: 0 <= i < n && Trim(lines[..n][i]) == w {
          var i :| 0 <= i < n && Trim(lines[..n][i]) == w;
          assert Trim(lines[i]) == w;
        }
      }
    }
  }

  /** A stopword read from a file is stored trimmed: trimming it again changes nothing. */
  lemma StopwordsTrimmed(stop: set<string>, lines: seq<string>, w: string)
    requires w in WithStopwords(stop, lines) && w !in stop
    ensures Trim(w) == w
  {
    StopwordsMembers(stop, lines, w);
    var i :| 0 <= i < |lines| && Trim(lines[i]) == w;
    TrimIdempotent(lines[i]);
  }

  // ---------------------------------------------------------------- vectorising

  /** The vectors of a sentence's tokens: per token in order, its lowercased word's vector if known and not a stopword. */
  function Vectorize(tokens: seq<string>, dict: map<string, string>, stop: set<string>, lower: string -> string)
    : (r: seq<string>)
    ensures |r| <= |tokens|
  {
    if tokens == [] then []
    else
      var key := lower(tokens[|tokens| - 1]);
      Vectorize(tokens[..|tokens| - 1], dict, stop, lower)
        + if key in dict && dict[key] !in stop then [dict[key]] else []
  }

  /** Vectorising keeps order: the vectors of a + b are those of a followed by those of b. */
  lemma {:induction false} VectorizeAppend(a: seq<string>, b: seq<string>, dict: map<string, string>, stop: set<string>, lower: string -> string)
    ensures Vectorize(a + b, dict, stop, lower) == Vectorize(a, dict, stop, lower) + Vectorize(b, dict, stop, lower)
  {
    if b == [] {
      assert a + b == a;
    } else {
      var n := |b| - 1;
      VectorizeAppend(a, b[..n], dict, stop, lower);
      assert (a + b)[..|a + b| - 1] == a + b[..n];
    }
  }

  /** One token: its vector when its lowercased word is in the dictionary and the vector is not a stopword, else nothing. */
  lemma VectorizeOne(t: string, dict: map<string, string>, stop: set<string>, lower: string -> string)
    ensures lower(t) in dict && dict[lower(t)] !in stop ==> Vectorize([t], dict, stop, lower) == [dict[lower(t)]]
    ensures lower(t) !in dict ==> Vectorize([t], dict, stop, lower) == []
    ensures lower(t) in dict && dict[lower(t)] in stop ==> Vectorize([t], dict, stop, lower) == []
  {
    assert [t][..0] == [];
  }

  /** Whether token i of tokens contributes the vector v. */
  ghost predicate Contributes(tokens: seq<string>, i: int, v: string, dict: map<string, string>, stop: set<string>, lower: string -> string)
  {
    0 <= i < |tokens| && lower(tokens[i]) in dict && dict[lower(tokens[i])] == v && v !in stop
  }

  /** A vector is in the output exactly when some token's lowercased word maps to it and it is not a stopword. */
  lemma {:induction false} VectorizeMembers(tokens: seq<string>, dict: map<string, string>, stop: set<string>, lower: string -> string, v: string)
    ensures v in Vectorize(tokens, dict, stop, lower) <==> exists i :: Contributes(tokens, i, v, dict, stop, lower)
  {
    if tokens != [] {
      var n := |tokens| - 1;
      VectorizeMembers(tokens[..n], dict, stop, lower, v);
      if !Contributes(tokens, n, v, dict, stop, lower) {
        if exists i :: Contributes(tokens, i, v, dict, stop, lower) {
          var i :| Contributes(tokens, i, v, dict, stop, lower);
          assert Contributes(tokens[..n], i, v, dict, stop, lower);
        }
        if exists i :: Contributes(tokens[..n], i, v, dict, stop, lower) {
          var i :| Contributes(tokens[..n], i, v, dict, stop, lower);
          assert Contributes(tokens, i, v, dict, stop, lower);
        }
      }
    }
  }

  /**
   * The stopword set is consulted on vectors only: two stopword sets that
   * agree on every vector of the dictionary give the same output, whatever
   * they say about the words themselves.
   */
  lemma {:induction false} StopwordsApplyToVectors(tokens: seq<string>, dict: map<string, string>, stop1: set<string>, stop2: set<string>, lower: string -> string)
    requires forall w :: w in dict ==> (dict[w] in stop1 <==> dict[w] in stop2)
    ensures Vectorize(tokens, dict, stop1, lower) == Vectorize(tokens, dict, stop2, lower)
  {
    if tokens != [] {
      StopwordsApplyToVectors(tokens[..|tokens| - 1], dict, stop1, stop2, lower);
    }
  }

  /** Tokens whose words are not in the dictionary are dropped silently: removing them changes nothing. */
  lemma {:induction false} UnknownTokensDropped(a: seq<string>, t: string, b: seq<string>, dict: map<string, string>, stop: set<string>, lower: string -> string)
    requires lower(t) !in dict
    ensures Vectorize(a + [t] + b, dict, stop, lower) == Vectorize(a + b, dict, stop, lower)
  {
    VectorizeAppend(a + [t], b, dict, stop, lower);
    VectorizeAppend(a, [t], dict, stop, lower);
    VectorizeAppend(a, b, dict, stop, lower);
    VectorizeOne(t, dict, stop, lower);
  }

  /** What preprocessing a sentence yields: the vectors of its tokens, joined with single spaces. */
  function Processed(dict: map<string, string>, stop: set<string>, sentence: string, lower: string -> string): string
  {
    Join(Vectorize(Tokens(sentence), dict, stop, lower), ' ')
  }

  // ---------------------------------------------------------------- the loaded state

  /** The static `dictionary` and `stopwords` collections of the program, filled by the loaders. */
  class Lexicon {
    var dictionary: map<string, string>
    var stopwords: set<string>

    constructor ()
      ensures dictionary == map[] && stopwords == {}
    {
      dictionary := map[];
      stopwords := {};
    }

    /** `loadDictionary`: reads the lines of the dictionary file in order. */
    method LoadDictionary(lines: seq<string>)
      modifies this
      ensures dictionary == Loaded(old(dictionary), lines)
      ensures stopwords == old(stopwords)
    {
      var i := 0;
      while i < |lines|
        invariant 0 <= i <= |lines|
        invariant dictionary == Apply(old(dictionary), Parsed(lines)[..i])
        invariant stopwords == old(stopwords)
      {
        var parts := JavaSplit(lines[i], '#');
        if |parts| == 2 {
          dictionary := dictionary[parts[0] := parts[1]];
        }
        assert Parsed(lines)[..i + 1][..i] == Parsed(lines)[..i];
        i := i + 1;
      }
      assert Parsed(lines)[..i] == Parsed(lines);
    }

    /** `loadStopwords`: adds every line of the stopword file, trimmed. */
    method LoadStopwords(lines: seq<string>)
      modifies this
      ensures stopwords == WithStopwords(old(stopwords), lines)
      ensures dictionary == old(dictionary)
    {
      var i := 0;
      while i < |lines|
        invariant 0 <= i <= |lines|
        invariant stopwords == WithStopwords(old(stopwords), lines[..i])
        invariant dictionary == old(dictionary)
      {
        stopwords := stopwords + {Trim(lines[i])};
        assert lines[..i + 1][..i] == lines[..i];
        i := i + 1;
      }
      assert lines[..i] == lines;
    }

    /**
     * `preprocess`: the sentence's tokens turned into vectors, joined with
     * single spaces.
     */
    method Preprocess(sentence: string, lower: string -> string) returns (processed: string)
      ensures processed == Processed(dictionary, stopwords, sentence, lower)
    {
      var tokens := Tokens(sentence);
      var vectors: seq<string> := [];
      for i := 0 to |tokens|
        invariant vectors == Vectorize(tokens[..i], dictionary, stopwords, lower)
      {
        var key := lower(tokens[i]);
        if key in dictionary && dictionary[key] !in stopwords {
          vectors := vectors + [dictionary[key]];
        }
        assert tokens[..i + 1][..i] == tokens[..i];
      }
      assert tokens[..|tokens|] == tokens;
      processed := Join(vectors, ' ');
    }
  }
}
