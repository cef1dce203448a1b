/**
 * The console tool (SP_TEST_02.java): loads the dictionary and stopword
 * files, then answers every input line with the space-separated vectors of
 * its known, non-stopword words.
 *
 * Standard input is the finite sequence `input`; the printed lines are the
 * sequence returned.
 */
module Console {
  import opened Lexicon

  /** The lines printed for the input lines: one per line, in order, each the preprocessing of that line. */
  function Replies(dict: map<string, string>, stop: set<string>, input: seq<string>, lower: string -> string): (r: seq<string>)
    ensures |r| == |input|
    ensures forall i :: 0 <= i < |input| ==> r[i] == Processed(dict, stop, input[i], lower)
  {
    seq(|input|, i requires 0 <= i < |input| => Processed(dict, stop, input[i], lower))
  }

  /**
   * `main`: load both files into an empty lexicon, then print one line per
   * input line, in input order, computed from the loaded dictionary and
   * stopwords.
   */
  method RunConsole(dictionaryLines: seq<string>, stopwordLines: seq<string>, input: seq<string>, lower: string -> string)
    returns (output: seq<string>)
    ensures output == Replies(Loaded(map[], dictionaryLines), WithStopwords({}, stopwordLines), input, lower)
  {
    var lex := new Lexicon();
    lex.LoadDictionary(dictionaryLines);
    lex.LoadStopwords(stopwordLines);
    ghost var dict, stop := lex.dictionary, lex.stopwords;
    output := [];
    for i := 0 to |input|
      invariant lex.dictionary == dict && lex.stopwords == stop
      invariant output == Replies(dict, stop, input[..i], lower)
    {
      var line := lex.Preprocess(input[i], lower);
      output := output + [line];
      assert input[..i + 1][..i] == input[..i];
    }
    assert input[..|input|] == input;
  }
}
