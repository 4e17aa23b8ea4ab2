/** The small helpers the scraper applies to each row of the live page:
    the match id taken from the row's link, the league name taken from a
    header row, the two teams and their players taken from the row's
    "A (x) - B (y)" text, and the numeric score parts used to infer
    goals. Each regular expression is written as an explicit scanner
    that tries the positions (or group lengths) in the order the
    JavaScript engine does. */
module Scrape {

  import opened Wrappers
  import opened JsString
  import opened JsNumber
  import opened StatusParser

  // ----- extractId (index.js, lines 15-18) -----

  /** `/id=(\d+)/` matches at position k. */
  predicate IdAt(s: string, k: nat) {
    k + 3 < |s| && s[k] == 'i' && s[k + 1] == 'd' && s[k + 2] == '=' && IsDigit(s[k + 3])
  }

  /** The leftmost position at or after i where `/id=(\d+)/` matches. */
  function IdStart(s: string, i: nat): (r: Option<nat>)
    requires i <= |s|
    decreases |s| - i
    ensures r.Some? ==> i <= r.value && IdAt(s, r.value)
    ensures r.Some? ==> forall k :: i <= k < r.value ==> !IdAt(s, k)
    ensures r.None? ==> forall k :: i <= k < |s| ==> !IdAt(s, k)
  {
    if i == |s| then None
    else if IdAt(s, i) then Some(i)
    else IdStart(s, i + 1)
  }

  /** `extractId(link)`: the digits after the first "id=" that is followed
      by a digit, taken greedily; None (`null`) when there is none. */
  function ExtractId(link: string): (r: Option<string>)
    ensures r.Some? ==> 0 < |r.value| && AllDigits(r.value, 0, |r.value|)
    ensures r.None? <==> forall k :: 0 <= k < |link| ==> !IdAt(link, k)
  {
    match IdStart(link, 0)
    case None => None
    case Some(k) => Some(link[k + 3 .. DigitEnd(link, k + 3)])
  }

  /** A link whose first "id=" followed by a digit is followed by the digit
      run d yields d, however the link goes on after the digits. */
  lemma ExtractIdOf(pre: string, d: string, rest: string)
    requires forall k :: 0 <= k < |pre| ==> !IdAt(pre, k)
    requires 0 < |d| && AllDigits(d, 0, |d|)
    requires rest == [] || !IsDigit(rest[0])
    ensures ExtractId(pre + "id=" + d + rest) == Some(d)
  {
    var s := pre + "id=" + d + rest;
    var i := |pre|;
    assert forall k :: 0 <= k < i ==> s[k] == pre[k];
    assert s[i] == 'i' && s[i + 1] == 'd' && s[i + 2] == '=';
    assert forall k :: 0 <= k < |d| ==> s[i + 3 + k] == d[k];
    forall k | 0 <= k < i ensures !IdAt(s, k) {
      if k + 3 < i {
        assert !IdAt(pre, k);
      }
    }
    assert IdAt(s, i);
    assert IdStart(s, 0) == Some(i);
    assert s[i + 3 + |d| ..] == rest;
    DigitEndAt(s, i + 3, i + 3 + |d|);
    assert s[i + 3 .. i + 3 + |d|] == d;
  }

  // ----- getLeagueName (index.js, lines 20-23) -----

  /** The end (exclusive) of a match of `\s*\(.*?\)` that starts at p: the
      spaces from p, a '(' and the first ')' after it, with no line
      terminator in between (which `.` does not cross). */
  function ParenEnd(s: string, p: nat): (r: Option<nat>)
    requires p <= |s|
    ensures r.Some? ==> p < r.value <= |s|
  {
    var q := SkipSpace(s, p);
    if q < |s| && s[q] == '(' then
      match IndexOfFrom(s, ')', q + 1)
      case None => None
      case Some(e) => if NoLineTerminator(s, q + 1, e) then Some(e + 1) else None
    else None
  }

  /** The leftmost match of `\s*\(.*?\)` at or after p, as (start, end). */
  function ParenMatch(s: string, p: nat): (r: Option<(nat, nat)>)
    requires p <= |s|
    decreases |s| - p
    ensures r.Some? ==> p <= r.value.0 < r.value.1 <= |s| && ParenEnd(s, r.value.0) == Some(r.value.1)
    ensures r.Some? ==> forall k :: p <= k < r.value.0 ==> ParenEnd(s, k).None?
    ensures r.None? ==> forall k :: p <= k < |s| ==> ParenEnd(s, k).None?
  {
    if p == |s| then None
    else match ParenEnd(s, p)
      case Some(e) => Some((p, e))
      case None => ParenMatch(s, p + 1)
  }

  /** `text.replace(/\s*\(.*?\)/, '')`: the first match is cut out. */
  function StripRemark(text: string): (r: string)
    ensures |r| <= |text|
    ensures ParenMatch(text, 0).None? ==> r == text
  {
    match ParenMatch(text, 0)
    case None => text
    case Some(m) => text[..m.0] + text[m.1..]
  }

  /** `getLeagueName(text)`: the first parenthesised remark, with the white
      space before it, is cut out, and the rest is trimmed. */
  function GetLeagueName(text: string): (r: string)
    ensures |r| <= |text|
    ensures r == [] || (!IsSpace(r[0]) && !IsSpace(r[|r| - 1]))
    ensures ParenMatch(text, 0).None? ==> r == Trim(text)
  {
    Trim(StripRemark(text))
  }

  /** A header without parentheses is only trimmed. */
  lemma LeagueWithoutParens(text: string)
    requires forall k :: 0 <= k < |text| ==> text[k] != '('
    ensures StripRemark(text) == text
    ensures GetLeagueName(text) == Trim(text)
  {
  }

  /** No match of `\s*\(.*?\)` starts inside a prefix that has no '(' and
      does not end in white space. */
  lemma NoParenBefore(s: string, n: nat)
    requires n <= |s| && forall k :: 0 <= k < n ==> s[k] != '('
    requires n == 0 || !IsSpace(s[n - 1])
    ensures forall p :: 0 <= p < n ==> ParenEnd(s, p).None?
  {
    forall p | 0 <= p < n ensures ParenEnd(s, p).None? {
      var q := SkipSpace(s, p);
      assert q < n;
    }
  }

  /** Spaces s[n..o], a '(' at o and the first ')' at e, on one line. */
  lemma ParenAt(s: string, n: nat, o: nat, e: nat)
    requires n <= o < e < |s| && s[o] == '(' && s[e] == ')'
    requires forall k :: n <= k < o ==> IsSpace(s[k])
    requires forall k :: o < k < e ==> s[k] != ')' && !IsLineTerminator(s[k])
    ensures ParenEnd(s, n) == Some(e + 1)
  {
    SkipSpaceAt(s, n, o);
    assert IndexOfFrom(s, ')', o + 1) == Some(e);
  }

  /** The remark cut out is the first one. */
  lemma StripAt(s: string, n: nat, e: nat)
    requires n < |s| && forall p :: 0 <= p < n ==> ParenEnd(s, p).None?
    requires ParenEnd(s, n) == Some(e)
    ensures StripRemark(s) == s[..n] + s[e..]
  {
    assert ParenMatch(s, 0) == Some((n, e));
  }

  /** A header "name (remark)..." loses the remark and the spaces before
      it, and nothing else. */
  /** Where the parts of `name + sp + "(" + x + ")" + post` sit. */
  lemma RemarkLayout(name: string, sp: string, x: string, post: string)
    ensures var s, o := name + sp + "(" + x + ")" + post, |name| + |sp|;
            && |s| == o + |x| + 2 + |post| && s[o] == '(' && s[o + 1 + |x|] == ')'
            && (forall k :: 0 <= k < |name| ==> s[k] == name[k])
            && (forall k :: |name| <= k < o ==> s[k] == sp[k - |name|])
            && (forall k :: o < k < o + 1 + |x| ==> s[k] == x[k - o - 1])
            && s[..|name|] == name && s[o + |x| + 2..] == post
  {
  }

  lemma LeagueWithParens(name: string, sp: string, x: string, post: string)
    requires forall k :: 0 <= k < |name| ==> name[k] != '('
    requires name == [] || !IsSpace(name[|name| - 1])
    requires forall k :: 0 <= k < |sp| ==> IsSpace(sp[k])
    requires forall k :: 0 <= k < |x| ==> x[k] != ')' && !IsLineTerminator(x[k])
    ensures StripRemark(name + sp + "(" + x + ")" + post) == name + post
    ensures GetLeagueName(name + sp + "(" + x + ")" + post) == Trim(name + post)
  {
    var s := name + sp + "(" + x + ")" + post;
    var n, o := |name|, |name| + |sp|;
    var e := o + 1 + |x|;
    RemarkLayout(name, sp, x, post);
    NoParenBefore(s, n);
    ParenAt(s, n, o, e);
    StripAt(s, n, e + 1);
  }

  // ----- splitTeams (index.js, lines 25-38) -----

  /** team1/gamer1/team2/gamer2; a missing player is None (`null`). */
  datatype Teams = Teams(team1: string, gamer1: Option<string>, team2: string, gamer2: Option<string>)

  /** `^(.+?)\s*\((.+?)\)$` with the first group s[..a]: its index q of
      the '(' when the rest of the pattern matches there. The spaces are
      taken greedily, and the second group runs to the final ')'. */
  function GamerOpenAt(s: string, a: nat): (r: Option<nat>)
    requires 1 <= a <= |s|
    ensures r.Some? ==> a <= r.value && r.value + 2 < |s| && s[r.value] == '(' && s[|s| - 1] == ')'
  {
    var q := SkipSpace(s, a);
    if NoLineTerminator(s, 0, a) && q + 2 < |s| && s[q] == '(' && s[|s| - 1] == ')'
       && NoLineTerminator(s, q + 1, |s| - 1)
    then Some(q)
    else None
  }

  /** The lazy first group: the shortest length a at or after the given
      one for which the pattern matches, with the '(' found for it. */
  function GamerSplit(s: string, a: nat): (r: Option<(nat, nat)>)
    requires 1 <= a <= |s|
    decreases |s| - a
    ensures r.Some? ==> a <= r.value.0 <= |s| && GamerOpenAt(s, r.value.0) == Some(r.value.1)
    ensures r.Some? ==> forall b :: a <= b < r.value.0 ==> GamerOpenAt(s, b).None?
    ensures r.None? ==> forall b :: a <= b <= |s| ==> GamerOpenAt(s, b).None?
  {
    match GamerOpenAt(s, a)
    case Some(q) => Some((a, q))
    case None => if a == |s| then None else GamerSplit(s, a + 1)
  }

  /** One side of the teams text: `m ? m[1].trim() : full` and
      `m ? m[2].trim() : null` for `m = full.match(/^(.+?)\s*\((.+?)\)$/)`. */
  function SplitSide(full: string): (r: (string, Option<string>))
    ensures r.1.None? ==> r.0 == full
    ensures r.1.None? <==> full == [] || forall b :: 1 <= b <= |full| ==> GamerOpenAt(full, b).None?
    ensures r.1.Some? ==> 3 <= |full| && full[|full| - 1] == ')'
  {
    if |full| == 0 then (full, None)
    else match GamerSplit(full, 1)
      case None => (full, None)
      case Some(m) => (Trim(full[..m.0]), Some(Trim(full[m.1 + 1 .. |full| - 1])))
  }

  /** `splitTeams(teams)`. The source destructures the first two parts of
      `teams.split(' - ')` and calls `match` on the second, so a text
      without the separator makes it throw: callers must supply one. */
  function SplitTeams(teams: string): (r: Teams)
    requires 2 <= |Split(teams, " - ")|
    ensures r.gamer1.None? ==> r.team1 == Trim(Split(teams, " - ")[0])
    ensures r.gamer2.None? ==> r.team2 == Trim(Split(teams, " - ")[1])
  {
    var parts := Split(teams, " - ");
    var side1, side2 := SplitSide(Trim(parts[0])), SplitSide(Trim(parts[1]));
    Teams(side1.0, side1.1, side2.0, side2.1)
  }

  /** The side "name<spaces>(gamer)" gives the trimmed name and player. */
  lemma SideWithGamer(name: string, sp: string, g: string)
    requires 0 < |name| && !IsSpace(name[|name| - 1])
    requires forall k :: 0 <= k < |name| ==> name[k] != '(' && !IsLineTerminator(name[k])
    requires forall k :: 0 <= k < |sp| ==> IsSpace(sp[k])
    requires 0 < |g| && forall k :: 0 <= k < |g| ==> !IsLineTerminator(g[k])
    ensures SplitSide(name + sp + "(" + g + ")") == (Trim(name), Some(Trim(g)))
  {
    var s := name + sp + "(" + g + ")";
    var n, o := |name|, |name| + |sp|;
    assert forall k :: 0 <= k < n ==> s[k] == name[k];
    assert forall k :: n <= k < o ==> s[k] == sp[k - n];
    assert s[o] == '(' && s[|s| - 1] == ')';
    assert forall k :: o < k < |s| - 1 ==> s[k] == g[k - o - 1];
    forall b | 1 <= b < n ensures GamerOpenAt(s, b).None? {
      var q := SkipSpace(s, b);
      assert q < n;
    }
    SkipSpaceAt(s, n, o);
    assert GamerOpenAt(s, n) == Some(o);
    assert GamerSplit(s, 1) == Some((n, o));
    assert s[..n] == name && s[o + 1 .. |s| - 1] == g;
  }

  /** A side that does not end in ')' has no player. */
  lemma SideWithoutGamer(full: string)
    requires full == [] || full[|full| - 1] != ')'
    ensures SplitSide(full) == (full, None)
  {
  }

  /** A side without '(' has no player either. */
  lemma SideWithoutParen(full: string)
    requires forall k :: 0 <= k < |full| ==> full[k] != '('
    ensures SplitSide(full) == (full, None)
  {
  }

  /** No " - " separator starts anywhere in t. */
  predicate NoSeparator(t: string) {
    forall k :: 0 <= k < |t| ==> !MatchesAt(t, k, " - ", false)
  }

  /** The teams text is cut at its first " - ": when the first separator
      in "A - B" is the one after A, the first side is A, and the second
      is B up to any further separator. */
  lemma TeamsAtSeparator(t1: string, t2: string)
    requires forall k :: 0 <= k < |t1| ==> !MatchesAt(t1 + " - " + t2, k, " - ", false)
    ensures 2 <= |Split(t1 + " - " + t2, " - ")|
    ensures SplitTeams(t1 + " - " + t2)
            == var side1, side2 := SplitSide(Trim(t1)), SplitSide(Trim(Split(t2, " - ")[0]));
               Teams(side1.0, side1.1, side2.0, side2.1)
  {
    SplitFirst(t1, " - ", t2);
  }

  /** A text free of " - " that ends in neither ' ' nor '-' runs into no
      separator across its end when " - " follows it. */
  lemma SeparatorFollows(x: string, y: string)
    requires NoSeparator(x) && 0 < |x| && x[|x| - 1] != ' ' && x[|x| - 1] != '-'
    ensures forall k :: 0 <= k < |x| ==> !MatchesAt(x + " - " + y, k, " - ", false)
  {
    var s := x + " - " + y;
    forall k | 0 <= k < |x| ensures !MatchesAt(s, k, " - ", false) {
      MatchesAtSlice(s, k, " - ");
      MatchesAtSlice(x, k, " - ");
      if k + 3 <= |x| {
        assert s[k .. k + 3] == x[k .. k + 3];
      } else if k + 2 == |x| {
        assert s[k + 1] == x[|x| - 1];
      } else {
        assert s[k] == x[|x| - 1];
      }
    }
  }

  /** A team name as the page prints it: not empty, not padded, on one
      line, free of '(', and holding no " - " even once a space follows
      it. Hyphens, as in "Нью-Йорк Рейнджерс", are allowed. */
  predicate PlainName(n: string) {
    && 0 < |n| && !IsSpace(n[0]) && !IsSpace(n[|n| - 1])
    && (forall k :: 0 <= k < |n| ==> n[k] != '(' && !IsLineTerminator(n[k]))
    && NoSeparator(n + " ")
  }

  /** A player tag: not empty, on one line, and free of " - ". */
  predicate PlainGamer(g: string) {
    && 0 < |g| && (forall k :: 0 <= k < |g| ==> !IsLineTerminator(g[k]))
    && NoSeparator(g)
  }

  /** The side "name (gamer)" as one string. */
  function Side(n: string, g: string): string {
    n + " (" + g + ")"
  }

  /** Joining a plain name and tag into a side creates no " - ". */
  lemma SideNoSeparator(n: string, g: string)
    requires PlainName(n) && PlainGamer(g)
    ensures NoSeparator(Side(n, g))
  {
    var t := Side(n, g);
    var m := |n| + 2;
    assert forall k :: 0 <= k < |n| ==> t[k] == n[k];
    assert t[|n|] == ' ' && t[|n| + 1] == '(' && t[|t| - 1] == ')';
    assert forall k :: m <= k < |t| - 1 ==> t[k] == g[k - m];
    forall k | 0 <= k < |t| ensures !MatchesAt(t, k, " - ", false) {
      MatchesAtSlice(t, k, " - ");
      if k + 2 <= |n| {
        MatchesAtSlice(n + " ", k, " - ");
        assert (n + " ")[k .. k + 3] == t[k .. k + 3];
      } else if m <= k && k + 3 < |t| {
        MatchesAtSlice(g, k - m, " - ");
        assert g[k - m .. k - m + 3] == t[k .. k + 3];
      }
    }
  }

  lemma SideOfPlain(n: string, g: string)
    requires PlainName(n) && PlainGamer(g)
    ensures Trim(Side(n, g)) == Side(n, g)
    ensures Split(Side(n, g), " - ") == [Side(n, g)]
    ensures SplitSide(Side(n, g)) == (n, Some(Trim(g)))
  {
    var t := Side(n, g);
    assert t[0] == n[0] && t[|t| - 1] == ')';
    TrimUnpadded(t);
    TrimUnpadded(n);
    SideNoSeparator(n, g);
    SplitNone(t, " - ");
    assert t == n + " " + "(" + g + ")";
    SideWithGamer(n, " ", g);
  }

  /** "Калгари Флэймз (SH0OZY) - Колорадо Эвеланш (OBEREG19)" and every
      text of that shape give both teams with their players. */
  lemma TeamsWithGamers(n1: string, g1: string, n2: string, g2: string)
    requires PlainName(n1) && PlainGamer(g1) && PlainName(n2) && PlainGamer(g2)
    ensures 2 <= |Split(Side(n1, g1) + " - " + Side(n2, g2), " - ")|
    ensures SplitTeams(Side(n1, g1) + " - " + Side(n2, g2)) == Teams(n1, Some(Trim(g1)), n2, Some(Trim(g2)))
  {
    var t1 := Side(n1, g1);
    SideNoSeparator(n1, g1);
    SeparatorFollows(t1, Side(n2, g2));
    TeamsAtSeparator(t1, Side(n2, g2));
    SideOfPlain(n1, g1);
    SideOfPlain(n2, g2);
  }

  // ----- getScoreParts (index.js, lines 53-57) -----

  /** `getScoreParts(score)`: [0, 0] for a null or empty score, otherwise
      the two numbers of `score.split(':')`, each defaulting to 0 when it
      is not a number (or is missing). */
  function GetScoreParts(score: Option<string>): (r: (int, int))
    ensures !Truthy(score) ==> r == (0, 0)
  {
    if !Truthy(score) then (0, 0)
    else
      var parts := ScoreNumbers(score.value);
      (parts.0.OrZero(), parts.1.OrZero())
  }

  /** A score rendered as `${h}:${a}` reads back as its two numbers, NaN
      and `undefined` counting as 0. */
  lemma ScorePartsOfRendered(p: (Num, Num))
    ensures GetScoreParts(Some(ScoreString(p))) == (p.0.OrZero(), p.1.OrZero())
  {
    ScoreRoundTrip(p);
  }

  /** The score "h:a" of two counts yields exactly those counts. */
  lemma ScorePartsOfCounts(h: nat, a: nat)
    ensures GetScoreParts(Some(NatToString(h) + ":" + NatToString(a))) == (h, a)
  {
    assert ScoreString((Fin(h), Fin(a))) == NatToString(h) + ":" + NatToString(a);
    ScorePartsOfRendered((Fin(h), Fin(a)));
  }
}
