/** File stems, their underscore-separated tokens, and the delimiter token shared by most files. */
module FileTokens {
  import opened Options

  datatype Token = Token(text: string)

  // ----- stems and tokens

  /** The part of a path behind its last slash or backslash. */
  function LastComponent(path: string): string {
    if path == "" || path[|path| - 1] == '/' || path[|path| - 1] == '\\' then ""
    else LastComponent(path[..|path| - 1]) + [path[|path| - 1]]
  }

  /** The name without its last extension; a trailing dot is no extension. */
  function WithoutExtension(name: string): string {
    var d := LastDot(name);
    if d.Some? && d.value + 1 < |name| then name[..d.value] else name
  }

  function LastDot(name: string): (r: Option<nat>)
    ensures r.Some? ==> r.value < |name| && name[r.value] == '.' && '.' !in name[r.value + 1..]
    ensures r.None? ==> '.' !in name
  {
    if name == "" then None
    else if name[|name| - 1] == '.' then Some(|name| - 1) else LastDot(name[..|name| - 1])
  }

  function FileStem(path: string): string {
    WithoutExtension(LastComponent(path))
  }

  predicate IsSlash(c: char) {
    c == '/' || c == '\\'
  }

  /** The last component is what is behind the last slash or backslash. */
  lemma {:induction false} LastComponentIsTail(path: string) returns (directory: string)
    ensures path == directory + LastComponent(path)
    ensures directory != "" ==> IsSlash(directory[|directory| - 1])
    ensures forall i :: 0 <= i < |LastComponent(path)| ==> !IsSlash(LastComponent(path)[i])
  {
    directory := path;
    if path != "" && !IsSlash(path[|path| - 1]) { directory := LastComponentIsTail(path[..|path| - 1]); }
  }

  /** A name is its stem and an extension: a last dot with at least one character behind it, or nothing when
      there is no such dot. */
  lemma StemAndExtension(name: string) returns (extension: string)
    ensures name == WithoutExtension(name) + extension
    ensures extension != "" ==> |extension| > 1 && extension[0] == '.' && '.' !in extension[1..]
    ensures extension == "" ==> '.' !in name || name[|name| - 1] == '.'
  {
    extension := name[|WithoutExtension(name)|..];
  }

  /** `str.split("_")`. */
  function Split(s: string): (r: seq<Token>)
    ensures r != []
  {
    if s == "" then [Token("")]
    else
      var n := |s| - 1;
      var before := Split(s[..n]);
      if s[n] == '_' then before + [Token("")]
      else before[..|before| - 1] + [Token(before[|before| - 1].text + [s[n]])]
  }

  /** The tokens hold no underscore. */
  lemma {:induction false} SplitHasNoSeparator(s: string)
    ensures forall t :: t in Split(s) ==> '_' !in t.text
  {
    if s != "" { SplitHasNoSeparator(s[..|s| - 1]); }
  }

  /** `"_".join(parts)`. */
  function Join(parts: seq<Token>): string {
    if parts == [] then ""
    else if |parts| == 1 then parts[0].text
    else Join(parts[..|parts| - 1]) + "_" + parts[|parts| - 1].text
  }

  /** Joining the tokens of a stem gives the stem back. */
  lemma {:induction false} JoinSplit(s: string)
    ensures Join(Split(s)) == s
  {
    if s != "" {
      var n := |s| - 1;
      JoinSplit(s[..n]);
      var before := Split(s[..n]);
      var k := |before| - 1;
      assert s == s[..n] + [s[n]];
      if s[n] == '_' {
        assert (before + [Token("")])[..k + 1] == before;
      } else {
        assert (before[..k] + [Token(before[k].text + [s[n]])])[..k] == before[..k];
      }
    }
  }

  function IndexOf(tokens: seq<Token>, token: Token): (i: nat)
    requires token in tokens
    ensures i < |tokens| && tokens[i] == token && token !in tokens[..i]
  {
    if tokens[0] == token then 0 else 1 + IndexOf(tokens[1..], token)
  }

  /** What comes before the delimiter token, or the whole stem without one. */
  function EventName(path: string, delimiter: Option<Token>): string {
    var stem := FileStem(path);
    var tokens := Split(stem);
    if delimiter.Some? && delimiter.value.text != "" && delimiter.value in tokens
    then Join(tokens[..IndexOf(tokens, delimiter.value)]) else stem
  }

  lemma {:induction false} JoinFirst(parts: seq<Token>, n: nat)
    requires 0 < n <= |parts|
    ensures Join(parts[..n]) <= Join(parts)
    ensures n < |parts| ==> Join(parts[..n]) + "_" + parts[n].text <= Join(parts)
  {
    assert parts[..|parts|] == parts;
    if n < |parts| {
      var m := |parts| - 1;
      if n < m {
        JoinFirst(parts[..m], n);
        assert parts[..m][..n] == parts[..n];
      }
    }
  }

  /** The event name is the beginning of the stem, cut right before the delimiter. */
  lemma EventNameIsPrefix(path: string, delimiter: Option<Token>)
    ensures EventName(path, delimiter) <= FileStem(path)
    ensures var tokens := Split(FileStem(path));
            delimiter.Some? && delimiter.value.text != "" && delimiter.value in tokens ==>
              if IndexOf(tokens, delimiter.value) == 0 then EventName(path, delimiter) == ""
              else EventName(path, delimiter) + "_" + delimiter.value.text <= FileStem(path)
  {
    var tokens := Split(FileStem(path));
    JoinSplit(FileStem(path));
    if delimiter.Some? && delimiter.value.text != "" && delimiter.value in tokens && IndexOf(tokens, delimiter.value) > 0 {
      JoinFirst(tokens, IndexOf(tokens, delimiter.value));
    }
  }

  // ----- the delimiter

  datatype Stats = Stats(fileCount: nat, firstPosition: nat)

  /** In how many files the token occurs. */
  function FileCount(files: seq<seq<Token>>, token: Token): nat {
    if files == [] then 0
    else FileCount(files[..|files| - 1], token) + if token in files[|files| - 1] then 1 else 0
  }

  /** The smallest position at which it first occurs in a file. */
  function FirstPosition(files: seq<seq<Token>>, token: Token): (r: Option<nat>)
    ensures r.Some? <==> FileCount(files, token) > 0
  {
    if files == [] then None
    else
      var n := |files| - 1;
      var before := FirstPosition(files[..n], token);
      if token !in files[n] then before
      else if before.None? || IndexOf(files[n], token) < before.value then Some(IndexOf(files[n], token))
      else before
  }

  /** The places of the files that hold the token. */
  ghost function FilesWith(files: seq<seq<Token>>, token: Token): set<int> {
    set i | 0 <= i < |files| && token in files[i]
  }

  lemma FilesWithNext(files: seq<seq<Token>>, last: seq<Token>, token: Token)
    ensures FilesWith(files + [last], token) == FilesWith(files, token) + if token in last then {|files|} else {}
  {}

  /** The count of a token is that of the files which hold it. */
  lemma {:induction false} CountIs(files: seq<seq<Token>>, token: Token)
    ensures FileCount(files, token) == |FilesWith(files, token)|
  {
    if files != [] {
      var n := |files| - 1;
      CountIs(files[..n], token);
      FilesWithNext(files[..n], files[n], token);
      assert files[..n] + [files[n]] == files;
    }
  }

  /** The position of a token is the smallest at which it first occurs in a file. */
  lemma {:induction false} PositionIs(files: seq<seq<Token>>, token: Token) returns (first: int)
    ensures FilesWith(files, token) == {} ==> FirstPosition(files, token).None?
    ensures FilesWith(files, token) != {} ==>
              first in FilesWith(files, token) && FirstPosition(files, token) == Some(IndexOf(files[first], token))
    ensures forall i :: i in FilesWith(files, token) ==> IndexOf(files[i], token) >= IndexOf(files[first], token)
  {
    first := 0;
    if files != [] {
      var n := |files| - 1;
      var before := PositionIs(files[..n], token);
      FilesWithNext(files[..n], files[n], token);
      assert files[..n] + [files[n]] == files;
      forall i | i in FilesWith(files[..n], token) ensures files[..n][i] == files[i] {}
      first := if n in FilesWith(files, token)
                  && (FilesWith(files[..n], token) == {} || IndexOf(files[n], token) < IndexOf(files[before], token))
               then n else before;
    }
  }

  ghost predicate IsToken(files: seq<seq<Token>>, token: Token) {
    token.text != "" && FileCount(files, token) > 0
  }

  ghost function StatsOf(files: seq<seq<Token>>, token: Token): Stats
    requires IsToken(files, token)
  {
    Stats(FileCount(files, token), FirstPosition(files, token).value)
  }

  /** More files, or as many and an earlier position. */
  predicate Better(a: Stats, b: Stats) {
    a.fileCount > b.fileCount || (a.fileCount == b.fileCount && a.firstPosition < b.firstPosition)
  }

  /** The non-empty tokens of a file added to those met before it. */
  function Meet(met: seq<Token>, tokens: seq<Token>): seq<Token> {
    if tokens == [] then met
    else
      var m := |tokens| - 1;
      var before := Meet(met, tokens[..m]);
      if tokens[m].text == "" || tokens[m] in before then before else before + [tokens[m]]
  }

  /** All tokens in the order in which they are first met. */
  function Met(files: seq<seq<Token>>): seq<Token> {
    if files == [] then [] else Meet(Met(files[..|files| - 1]), files[|files| - 1])
  }

  /** The statistics of every token. */
  ghost predicate Tallies(files: seq<seq<Token>>, stats: map<Token, Stats>) {
    && (forall t :: t in stats <==> IsToken(files, t))
    && (forall t :: t in stats ==> stats[t] == StatsOf(files, t))
  }

  lemma {:induction false} IndexInPrefix(prefix: seq<Token>, token: Token, t: Token)
    ensures t in prefix ==> IndexOf(prefix + [token], t) == IndexOf(prefix, t)
    ensures t !in prefix && t == token ==> IndexOf(prefix + [token], t) == |prefix|
  {
    if prefix != [] {
      IndexInPrefix(prefix[1..], token, t);
      assert (prefix + [token])[1..] == prefix[1..] + [token];
      assert prefix == [prefix[0]] + prefix[1..];
    }
  }

  /** One more token in the last file changes the statistics of that token only, and only the first time. */
  lemma NextToken(files: seq<seq<Token>>, prefix: seq<Token>, token: Token, t: Token)
    ensures var was, now := files + [prefix], files + [prefix + [token]];
            if t == token && t !in prefix then
              && FileCount(now, t) == FileCount(was, t) + 1
              && FirstPosition(now, t) ==
                   Some(if FirstPosition(was, t).None? || |prefix| < FirstPosition(was, t).value then |prefix|
                        else FirstPosition(was, t).value)
            else FileCount(now, t) == FileCount(was, t) && FirstPosition(now, t) == FirstPosition(was, t)
  {
    var was, now := files + [prefix], files + [prefix + [token]];
    assert was[..|files|] == files && now[..|files|] == files;
    IndexInPrefix(prefix, token, t);
  }

  lemma NextMet(files: seq<seq<Token>>, prefix: seq<Token>, token: Token)
    ensures var was := Met(files + [prefix]);
            Met(files + [prefix + [token]]) == if token.text == "" || token in was then was else was + [token]
  {
    var was, now := files + [prefix], files + [prefix + [token]];
    assert was[..|files|] == files && now[..|files|] == files;
    assert (prefix + [token])[..|prefix|] == prefix;
  }

  lemma EmptyFile(files: seq<seq<Token>>, t: Token)
    ensures FileCount(files + [[]], t) == FileCount(files, t)
    ensures FirstPosition(files + [[]], t) == FirstPosition(files, t)
    ensures Met(files + [[]]) == Met(files)
  {
    assert (files + [[]])[..|files|] == files;
  }

  /** The tally after one more token of the current file, which is new in it. */
  function Counted(stats: map<Token, Stats>, token: Token, position: nat): map<Token, Stats> {
    var was := if token in stats then stats[token] else Stats(0, position);
    stats[token := Stats(was.fileCount + 1, if position < was.firstPosition then position else was.firstPosition)]
  }

  lemma CountedTallies(files: seq<seq<Token>>, prefix: seq<Token>, token: Token, stats: map<Token, Stats>)
    requires Tallies(files + [prefix], stats)
    ensures Tallies(files + [prefix + [token]],
                    if token.text == "" || token in prefix then stats else Counted(stats, token, |prefix|))
  {
    var now := files + [prefix + [token]];
    var stats' := if token.text == "" || token in prefix then stats else Counted(stats, token, |prefix|);
    forall t ensures (t in stats' <==> IsToken(now, t)) && (t in stats' ==> stats'[t] == StatsOf(now, t)) {
      NextToken(files, prefix, token, t);
    }
  }

  lemma {:induction false} MeetAdds(met: seq<Token>, tokens: seq<Token>, t: Token)
    ensures t in Meet(met, tokens) <==> t in met || (t.text != "" && t in tokens)
  {
    if tokens != [] {
      var m := |tokens| - 1;
      MeetAdds(met, tokens[..m], t);
      assert tokens == tokens[..m] + [tokens[m]];
      if tokens[m].text != "" { MeetAdds(met, tokens[..m], tokens[m]); }
    }
  }

  /** The tokens met are exactly the tokens of the files. */
  lemma {:induction false} MetAreTokens(files: seq<seq<Token>>, t: Token)
    ensures t in Met(files) <==> IsToken(files, t)
  {
    if files != [] {
      MetAreTokens(files[..|files| - 1], t);
      MeetAdds(Met(files[..|files| - 1]), files[|files| - 1], t);
    }
  }

  function TokenLists(paths: seq<string>): seq<seq<Token>> {
    if paths == [] then [] else TokenLists(paths[..|paths| - 1]) + [Split(FileStem(paths[|paths| - 1]))]
  }

  /** Everything one more token of the current file changes. */
  lemma TokenCounted(files: seq<seq<Token>>, prefix: seq<Token>, token: Token, met: seq<Token>, stats: map<Token, Stats>)
    requires Tallies(files + [prefix], stats) && met == Met(files + [prefix])
    ensures var now := files + [prefix + [token]];
            if token.text == "" || token in prefix then Tallies(now, stats) && met == Met(now)
            else Tallies(now, Counted(stats, token, |prefix|))
                 && Met(now) == if token in stats then met else met + [token]
    ensures NonEmpty(prefix + [token]) == if token.text == "" then NonEmpty(prefix) else NonEmpty(prefix) + {token}
  {
    CountedTallies(files, prefix, token, stats);
    NextMet(files, prefix, token);
    MetAreTokens(files + [prefix], token);
    if token in prefix && token.text != "" {
      assert (files + [prefix])[..|files|] == files;
      MeetAdds(Met(files), prefix, token);
    }
  }

  /** The tallies while a file is read: its first tokens are counted, `met` holds the keys of `stats` in
      insertion order and `seen` the tokens of this file. */
  ghost predicate Tallied(files: seq<seq<Token>>, prefix: seq<Token>, met: seq<Token>, stats: map<Token, Stats>,
                          seen: set<Token>)
  {
    Tallies(files + [prefix], stats) && met == Met(files + [prefix]) && seen == NonEmpty(prefix)
  }

  method CountToken(ghost files: seq<seq<Token>>, ghost prefix: seq<Token>, position: nat, token: Token,
                    met: seq<Token>, stats: map<Token, Stats>, seen: set<Token>)
    returns (met': seq<Token>, stats': map<Token, Stats>, seen': set<Token>)
    requires Tallied(files, prefix, met, stats, seen) && position == |prefix|
    ensures Tallied(files, prefix + [token], met', stats', seen')
  {
    TokenCounted(files, prefix, token, met, stats);
    if token.text == "" || token in seen { return met, stats, seen; }
    met' := if token in stats then met else met + [token];
    stats' := Counted(stats, token, position);
    seen' := seen + {token};
  }

  /** Adds one file to the tallies. */
  method CountFile(ghost files: seq<seq<Token>>, tokens: seq<Token>, met: seq<Token>, stats: map<Token, Stats>)
    returns (met': seq<Token>, stats': map<Token, Stats>)
    requires Tallies(files, stats) && met == Met(files)
    ensures Tallies(files + [tokens], stats') && met' == Met(files + [tokens])
  {
    met', stats' := met, stats;
    var seen: set<Token> := {};
    EmptyTallies(files, stats);
    for position := 0 to |tokens|
      invariant Tallied(files, tokens[..position], met', stats', seen)
    {
      met', stats', seen := CountToken(files, tokens[..position], position, tokens[position], met', stats', seen);
      assert tokens[..position + 1] == tokens[..position] + [tokens[position]];
    }
    assert tokens[..|tokens|] == tokens;
  }

  function NonEmpty(tokens: seq<Token>): set<Token> {
    set t | t in tokens && t.text != ""
  }

  lemma EmptyTallies(files: seq<seq<Token>>, stats: map<Token, Stats>)
    requires Tallies(files, stats)
    ensures Tallies(files + [[]], stats) && Met(files + [[]]) == Met(files)
  {
    EmptyFile(files, Token(""));
    forall t ensures (t in stats <==> IsToken(files + [[]], t)) && (t in stats ==> stats[t] == StatsOf(files + [[]], t)) {
      EmptyFile(files, t);
    }
  }

  /** k is the place of a score that no other one beats: none has more files, none as many and an earlier
      position; and it is the first such place. */
  ghost predicate IsFirstBest(scores: seq<Stats>, k: int) {
    && 0 <= k < |scores|
    && (forall j :: 0 <= j < |scores| ==>
          && scores[j].fileCount <= scores[k].fileCount
          && (scores[j].fileCount == scores[k].fileCount ==> scores[j].firstPosition >= scores[k].firstPosition))
    && (forall j :: 0 <= j < k ==> scores[j] != scores[k])
  }

  ghost function Scores(files: seq<seq<Token>>, met: seq<Token>): seq<Stats>
    requires forall t :: t in met ==> IsToken(files, t)
  {
    seq(|met|, j requires 0 <= j < |met| => StatsOf(files, met[j]))
  }

  method CountFiles(paths: seq<string>) returns (met: seq<Token>, stats: map<Token, Stats>)
    ensures Tallies(TokenLists(paths), stats) && met == Met(TokenLists(paths))
  {
    met, stats := [], map[];
    for n := 0 to |paths|
      invariant Tallies(TokenLists(paths[..n]), stats) && met == Met(TokenLists(paths[..n]))
    {
      assert paths[..n + 1][..n] == paths[..n];
      met, stats := CountFile(TokenLists(paths[..n]), Split(FileStem(paths[n])), met, stats);
    }
    assert paths[..|paths|] == paths;
  }

  /** The token found in most files, of those the one at the earliest position, of those the one met first;
      None when no file has a token. */
  method DiscoverEventDelimiter(paths: seq<string>) returns (r: Option<Token>)
    ensures var files, met := TokenLists(paths), Met(TokenLists(paths));
            && (forall t :: t in met <==> IsToken(files, t))
            && (r.None? <==> met == [])
            && (r.Some? ==> exists k :: IsFirstBest(Scores(files, met), k) && r == Some(met[k]))
  {
    var met, stats := CountFiles(paths);
    ghost var files := TokenLists(paths);
    forall t ensures t in met <==> IsToken(files, t) { MetAreTokens(files, t); }
    if met == [] { return None; }
    r := BestToken(met, stats, Scores(files, met));
  }

  method BestToken(met: seq<Token>, stats: map<Token, Stats>, ghost scores: seq<Stats>) returns (r: Option<Token>)
    requires met != [] && |scores| == |met|
    requires forall j :: 0 <= j < |met| ==> met[j] in stats && stats[met[j]] == scores[j]
    ensures exists k :: IsFirstBest(scores, k) && r == Some(met[k])
  {
    ghost var k := 0;
    var best, score := met[0], stats[met[0]];
    for n := 1 to |met|
      invariant IsFirstBest(scores[..n], k) && best == met[k] && score == scores[k]
    {
      if Better(stats[met[n]], score) { best, score, k := met[n], stats[met[n]], n; }
    }
    assert scores[..|met|] == scores;
    return Some(best);
  }
}
