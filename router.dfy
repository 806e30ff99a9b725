// The command router (Mux.Route): classifies chat text addressed to the bot
// into one of five command kinds and hands back the unconsumed text.
module Router {
  import opened Text

  datatype Kind = Announce | Karma | Leaderboard | Loserboard | BumpKarma

  /** The word that selects a keyword route; BumpKarma has none. */
  function Keyword(k: Kind): string
  {
    match k
    case Announce => "announce"
    case Karma => "karma"
    case Leaderboard => "top"
    case Loserboard => "bot"
    case BumpKarma => ""
  }

  /** Route(text) of a mux built with NewMux(prefix).
      Text without the mention prefix is all body for BumpKarma. Otherwise the
      prefix is removed, then at most one separating space, and the leading
      keyword picks the route; the body is whatever follows the keyword, its
      leading space included. A prefixed text with no keyword goes to
      BumpKarma with the prefix-stripped text as body. */
  function Route(prefix: string, text: string): (r: (Kind, string))
    ensures |r.1| <= |text| && text[|text| - |r.1|..] == r.1
    ensures !HasPrefix(text, prefix) ==> r == (BumpKarma, text)
    ensures r.0 == BumpKarma && HasPrefix(text, prefix) ==> r.1 == text[|prefix|..]
  {
    if !HasPrefix(text, prefix) then (BumpKarma, text)
    else
      var rest := text[|prefix|..];
      Dispatch(if HasPrefix(rest, " ") then rest[1..] else rest, rest)
  }

  /** The keyword step of Route: `cmd` is the prefix-stripped text without
      its separating space, `rest` the prefix-stripped text itself. */
  function Dispatch(cmd: string, rest: string): (r: (Kind, string))
    ensures r.0 != BumpKarma ==> HasPrefix(cmd, Keyword(r.0)) && r.1 == cmd[|Keyword(r.0)|..]
    ensures r.0 == BumpKarma <==>
      !HasPrefix(cmd, "announce") && !HasPrefix(cmd, "karma") && !HasPrefix(cmd, "top") && !HasPrefix(cmd, "bot")
    ensures r.0 == BumpKarma ==> r.1 == rest
  {
    if HasPrefix(cmd, "announce") then (Announce, cmd[8..])
    else if HasPrefix(cmd, "karma") then (Karma, cmd[5..])
    else if HasPrefix(cmd, "top") then (Leaderboard, cmd[3..])
    else if HasPrefix(cmd, "bot") then (Loserboard, cmd[3..])
    else (BumpKarma, rest)
  }

  /** No keyword is a prefix of another, so a keyword picks one route. */
  lemma KeywordsDisjoint(k: Kind, j: Kind, s: string)
    requires k != BumpKarma && j != BumpKarma && k != j
    requires HasPrefix(s, Keyword(k))
    ensures !HasPrefix(s, Keyword(j))
  {
    assert s[0] == s[..|Keyword(k)|][0] == Keyword(k)[0] != Keyword(j)[0];
    assert |Keyword(j)| <= |s| ==> s[..|Keyword(j)|][0] == s[0];
  }

  /** A command that starts with a keyword dispatches to that keyword's
      kind, with everything after the keyword as body. */
  lemma {:induction false} DispatchKeyword(k: Kind, body: string, rest: string)
    requires k != BumpKarma
    ensures Dispatch(Keyword(k) + body, rest) == (k, body)
  {
    var cmd := Keyword(k) + body;
    HasPrefixConcat(Keyword(k), body);
    if k != Announce { KeywordsDisjoint(k, Announce, cmd); }
    if k != Karma { KeywordsDisjoint(k, Karma, cmd); }
    if k != Leaderboard { KeywordsDisjoint(k, Leaderboard, cmd); }
  }

  /** Round trip: the text "<prefix> <keyword><body>" routes back to the
      keyword's kind with exactly `body`, and so does the text without the
      separating space. */
  lemma {:induction false} RouteKeyword(prefix: string, k: Kind, body: string, spaced: bool)
    requires k != BumpKarma
    ensures Route(prefix, prefix + (if spaced then " " else "") + Keyword(k) + body) == (k, body)
  {
    if spaced {
      RouteSpaced(prefix, k, body);
    } else {
      RouteUnspaced(prefix, k, body);
      assert prefix + "" == prefix;
    }
  }

  lemma {:induction false} RouteSpaced(prefix: string, k: Kind, body: string)
    requires k != BumpKarma
    ensures Route(prefix, prefix + " " + Keyword(k) + body) == (k, body)
  {
    var cmd := Keyword(k) + body;
    assert prefix + " " + Keyword(k) + body == prefix + (" " + cmd);
    RouteStripsPrefix(prefix, " " + cmd);
    HasPrefixConcat(" ", cmd);
    DispatchKeyword(k, body, " " + cmd);
  }

  lemma {:induction false} RouteUnspaced(prefix: string, k: Kind, body: string)
    requires k != BumpKarma
    ensures Route(prefix, prefix + Keyword(k) + body) == (k, body)
  {
    var cmd := Keyword(k) + body;
    assert prefix + Keyword(k) + body == prefix + cmd;
    RouteStripsPrefix(prefix, cmd);
    KeywordIsNotSpaced(k, body);
    DispatchKeyword(k, body, cmd);
  }

  /** No keyword starts with a space. */
  lemma KeywordIsNotSpaced(k: Kind, body: string)
    requires k != BumpKarma
    ensures !HasPrefix(Keyword(k) + body, " ")
  {
    assert (Keyword(k) + body)[0] == Keyword(k)[0];
  }

  /** A text made of the prefix and `rest` is dispatched on `rest`. */
  lemma {:induction false} RouteStripsPrefix(prefix: string, rest: string)
    ensures Route(prefix, prefix + rest) ==
            Dispatch(if HasPrefix(rest, " ") then rest[1..] else rest, rest)
  {
    HasPrefixConcat(prefix, rest);
  }

  /** Conversely, a keyword route only comes from such a text: the text is
      the prefix, at most one space, the keyword and then the body. */
  lemma RouteDecomposes(prefix: string, text: string)
    requires Route(prefix, text).0 != BumpKarma
    ensures var (k, body) := Route(prefix, text);
            text == prefix + Keyword(k) + body || text == prefix + " " + Keyword(k) + body
  {
    assert HasPrefix(text, prefix);
    var rest := text[|prefix|..];
    var cmd := if HasPrefix(rest, " ") then rest[1..] else rest;
    assert Route(prefix, text) == Dispatch(cmd, rest);
    var (k, body) := Dispatch(cmd, rest);
    assert cmd == Keyword(k) + body by {
      assert cmd == cmd[..|Keyword(k)|] + cmd[|Keyword(k)|..];
    }
    if HasPrefix(rest, " ") {
      Reassemble(text, prefix, " ", cmd);
    } else {
      Reassemble(text, prefix, "", cmd);
    }
  }

  /** A text that starts with `prefix` and then `sep` is the prefix, the
      separator and what follows. */
  lemma Reassemble(text: string, prefix: string, sep: string, cmd: string)
    requires HasPrefix(text, prefix) && HasPrefix(text[|prefix|..], sep)
    requires text[|prefix|..][|sep|..] == cmd
    ensures text == prefix + sep + cmd
  {
    var rest := text[|prefix|..];
    assert text == text[..|prefix|] + rest;
    assert rest == rest[..|sep|] + rest[|sep|..];
  }

  // The cases of TestMux.

  lemma PrefixIsStripped()
    ensures Route("@colt", "@colt announce on") == (Announce, " on")
  {
    assert "@colt announce on" == "@colt" + " " + Keyword(Announce) + " on";
    RouteKeyword("@colt", Announce, " on", true);
  }

  lemma AnnounceRoute()
    ensures Route("bull", "bull announce").0 == Announce
  {
    assert "bull announce" == "bull" + " " + Keyword(Announce) + "";
    RouteKeyword("bull", Announce, "", true);
  }

  lemma KarmaRoute()
    ensures Route("goat", "goat karma").0 == Karma
  {
    assert "goat karma" == "goat" + " " + Keyword(Karma) + "";
    RouteKeyword("goat", Karma, "", true);
  }

  lemma LeaderboardRoute()
    ensures Route("hare", "hare top").0 == Leaderboard
  {
    assert "hare top" == "hare" + " " + Keyword(Leaderboard) + "";
    RouteKeyword("hare", Leaderboard, "", true);
  }

  lemma LoserboardRoute()
    ensures Route("mule", "mule bot").0 == Loserboard
  {
    assert "mule bot" == "mule" + " " + Keyword(Loserboard) + "";
    RouteKeyword("mule", Loserboard, "", true);
  }

  lemma DefaultRouteIsBumpKarma()
    ensures Route("newt", "wolf seal oxen") == (BumpKarma, "wolf seal oxen")
  {
    assert "wolf seal oxen"[..4][0] == 'w';
  }
}
