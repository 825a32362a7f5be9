/** query/keywords.py: the single-word fallback keyword of a place name. */
module Keywords {
  import opened Wrappers
  import opened Seqs
  import opened Text

  /** Administrative words that never make a useful keyword on their own. */
  const STOPWORDS: set<string> := {"desa", "kelurahan", "gampong", "kampung", "nagari", "dusun"}

  /** The regular-expression substitution `[^a-zA-Z\s]` -> " ", one character at a time. */
  function CleanChar(c: char): char
  {
    if IsAsciiLetter(c) || IsSpace(c) then c else ' '
  }

  function Clean(s: string): (r: string)
    ensures |r| == |s|
    ensures forall i :: 0 <= i < |s| ==> r[i] == CleanChar(s[i])
  {
    seq(|s|, i requires 0 <= i < |s| => CleanChar(s[i]))
  }

  /** A token survives unless it is a stop word. */
  function NonStop(t: string): Option<string>
  {
    if t in STOPWORDS then None else Some(t)
  }

  /** The tokens that are not stop words, in their original order. */
  function DropStopwords(ts: seq<string>): seq<string>
  {
    FilterMap(ts, NonStop)
  }

  /** The kept tokens are exactly the non-stop-word tokens, in their original order and with
      their multiplicity: increasing positions `idx` pick each kept token out of `ts`, and
      every non-stop-word position is picked. */
  lemma DropStopwordsKeepsOrder(ts: seq<string>) returns (idx: seq<nat>)
    ensures |idx| == |DropStopwords(ts)| && Increasing(idx)
    ensures forall k :: 0 <= k < |idx| ==> idx[k] < |ts| && ts[idx[k]] !in STOPWORDS && DropStopwords(ts)[k] == ts[idx[k]]
    ensures forall i :: 0 <= i < |ts| && ts[i] !in STOPWORDS ==> exists k :: 0 <= k < |idx| && idx[k] == i
  {
    idx := FilterMapIndices(ts, NonStop);
  }

  /** A word is kept exactly when it is a token and not a stop word. */
  lemma DropStopwordsMembers(ts: seq<string>)
    ensures forall t :: t in DropStopwords(ts) <==> t in ts && t !in STOPWORDS
  {
    var idx := DropStopwordsKeepsOrder(ts);
    var r := DropStopwords(ts);
    forall t | t in r ensures t in ts && t !in STOPWORDS {
      var k :| 0 <= k < |r| && r[k] == t;
      assert ts[idx[k]] == t;
    }
    forall t | t in ts && t !in STOPWORDS ensures t in r {
      var i :| 0 <= i < |ts| && ts[i] == t;
      var k :| 0 <= k < |idx| && idx[k] == i;
      assert r[k] == t;
    }
  }

  /** The candidate words of a name: lower-cased, non-letters blanked, split, stop words dropped. */
  function Tokens(name: string): seq<string>
  {
    DropStopwords(Split(Clean(Lower(name))))
  }

  /** The index Python's `max(ts, key=len)` picks: a longest element, the first one among equals. */
  function LongestIndex(ts: seq<string>): (i: nat)
    requires |ts| > 0
    ensures i < |ts|
    ensures forall j :: 0 <= j < |ts| ==> |ts[j]| <= |ts[i]|
    ensures forall j :: 0 <= j < i ==> |ts[j]| < |ts[i]|
  {
    if |ts| == 1 then 0
    else
      var b := LongestIndex(ts[..|ts| - 1]);
      if |ts[|ts| - 1]| > |ts[b]| then |ts| - 1 else b
  }

  /** `extract_single_word`: the longest non-stop-word token of the name, or "" if none. */
  function ExtractSingleWord(name: string): (r: string)
    ensures name == "" ==> r == ""
    ensures r !in STOPWORDS
    ensures r == "" <==> Tokens(name) == []
    ensures r != "" ==> r in Tokens(name) && forall i :: 0 <= i < |r| ==> IsAsciiLower(r[i])
    ensures forall t :: t in Tokens(name) ==> |t| <= |r|
    ensures r != "" ==> exists i :: 0 <= i < |Tokens(name)| && Tokens(name)[i] == r
                                    && forall j :: 0 <= j < i ==> |Tokens(name)[j]| < |r|
  {
    if name == "" then ""
    else
      var tokens := Tokens(name);
      if tokens == [] then ""
      else
        var i := LongestIndex(tokens);
        DropStopwordsMembers(Split(Clean(Lower(name))));
        LowerCleanedWords(name);
        assert tokens[i] in tokens;
        tokens[i]
  }

  /** Every token is a non-empty run of lower-case ASCII letters. */
  lemma LowerCleanedWords(name: string)
    ensures forall t :: t in Tokens(name) ==> t != "" && forall i :: 0 <= i < |t| ==> IsAsciiLower(t[i])
  {
    var cleaned := Clean(Lower(name));
    assert LowerOrSpace(cleaned);
    SplitLowerWords(cleaned);
    var ws := Split(cleaned);
    DropStopwordsMembers(ws);
    forall t | t in Tokens(name) ensures t != "" && forall i :: 0 <= i < |t| ==> IsAsciiLower(t[i]) {
      var k :| 0 <= k < |ws| && ws[k] == t;
      assert AllLower(ws[k]);
    }
  }
}
