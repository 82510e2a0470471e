/**
 * The pagination link parser (`pagelinks`). It reads the simplified form of an
 * HTTP `Link` header (section 3 of RFC 8288) that the service sends, with the
 * one regular expression `<(.*?)>; rel="(.*?)"`, and folds every match into a
 * map from relation name to URL.
 *
 * The matcher is written out with the semantics of Go's RE2 engine:
 * matches are found leftmost first and never overlap, both groups are lazy
 * (the shortest group that lets the whole pattern match is taken, the first
 * group before the second), and `.` matches any character but a newline.
 */
module LinkHeader {
  import opened Wrappers
  import Assoc

  /** The literal text between the two groups of the pattern. */
  const Separator: string := ">; rel=\""

  /** A relation as the parser reports it: (relation name, URL). */
  type Link = (string, string)

  /**
   * Where the lazy second group `(.*?)"` that starts at `k` ends: the first
   * quote at or after `k`, provided no newline comes before it.
   */
  function CloseQuote(s: string, k: nat): (q: Option<nat>)
    requires k <= |s|
    decreases |s| - k
    ensures q.Some? ==> k <= q.value < |s| && s[q.value] == '"'
    ensures q.Some? ==> forall m :: k <= m < q.value ==> s[m] != '"' && s[m] != '\n'
    ensures q.None? ==> forall m :: k <= m < |s| && s[m] == '"' ==> exists n :: k <= n < m && s[n] == '\n'
  {
    if k == |s| then None
    else if s[k] == '"' then Some(k)
    else if s[k] == '\n' then None
    else CloseQuote(s, k + 1)
  }

  /** Whether the first group may end at `j`: the separator follows, then a complete second group. */
  predicate Closes(s: string, j: nat)
    requires j <= |s|
  {
    j + |Separator| <= |s| && s[j..j + |Separator|] == Separator && CloseQuote(s, j + |Separator|).Some?
  }

  /**
   * Where the lazy first group `(.*?)` that starts at `j` ends: the least
   * position from which the rest of the pattern matches, provided no newline
   * comes before it.
   */
  function UrlEnd(s: string, j: nat): (e: Option<nat>)
    requires j <= |s|
    decreases |s| - j
    ensures e.Some? ==> j <= e.value <= |s| && Closes(s, e.value)
    ensures e.Some? ==> forall m :: j <= m < e.value ==> s[m] != '\n' && !Closes(s, m)
    ensures e.None? ==> forall m :: j <= m <= |s| && Closes(s, m) ==> exists n :: j <= n < m && s[n] == '\n'
  {
    if Closes(s, j) then Some(j)
    else if j == |s| || s[j] == '\n' then None
    else UrlEnd(s, j + 1)
  }

  /** The text of one header entry that the pattern matches exactly. */
  function EntryText(l: Link): string
  {
    "<" + l.1 + Separator + l.0 + "\""
  }

  /**
   * The match of the pattern anchored at the start of `s`, if any: the
   * relation it reports and the length of the text it consumes.
   */
  function MatchPrefix(s: string): (r: Option<(Link, nat)>)
    ensures r.Some? ==> 0 < r.value.1 <= |s| && s[..r.value.1] == EntryText(r.value.0)
    ensures r.Some? ==> '\n' !in r.value.0.1 && '\n' !in r.value.0.0 && '"' !in r.value.0.0
  {
    if |s| == 0 || s[0] != '<' then None
    else match UrlEnd(s, 1)
      case None => None
      case Some(e) =>
        var k := e + |Separator|;
        var q := CloseQuote(s, k).value;
        var l := (s[k..q], s[1..e]);
        PrefixPieces(s, e, k, q);
        Some((l, q + 1))
  }

  /** A matched prefix is the opening bracket, the URL, the separator, the relation and the quote. */
  lemma PrefixPieces(s: string, e: nat, k: nat, q: nat)
    requires 1 <= e <= k <= q < |s| && s[0] == '<' && s[q] == '"'
    ensures s[..q + 1] == "<" + s[1..e] + s[e..k] + s[k..q] + "\""
  {
    assert s[..1] == "<";
    assert s[..e] == s[..1] + s[1..e];
    assert s[..k] == s[..e] + s[e..k];
    assert s[..q] == s[..k] + s[k..q];
    assert s[..q + 1] == s[..q] + [s[q]];
  }

  /**
   * All matches of the pattern in `s`, leftmost first and without overlap,
   * as Go's `FindAllStringSubmatch(s, -1)` reports them.
   */
  function Matches(s: string): (ls: seq<Link>)
    decreases |s|
  {
    if |s| == 0 then []
    else match MatchPrefix(s)
      case Some((l, n)) => [l] + Matches(s[n..])
      case None => Matches(s[1..])
  }

  /** Whether `t` occurs as a contiguous part of `s`. */
  predicate Occurs(t: string, s: string)
    decreases |s|
  {
    t <= s || (|s| > 0 && Occurs(t, s[1..]))
  }

  /** What occurs in a suffix occurs in the whole text. */
  lemma {:induction false} OccursInSuffix(t: string, s: string, n: nat)
    requires n <= |s| && Occurs(t, s[n..])
    ensures Occurs(t, s)
  {
    if n > 0 {
      assert s[1..][n - 1..] == s[n..];
      OccursInSuffix(t, s[1..], n - 1);
    }
  }

  /**
   * Soundness of the parser: every relation it reports stands verbatim in the
   * header as `<url>; rel="name"`, the URL being exactly the text between the
   * angle brackets.
   */
  lemma {:induction false} MatchesOccur(s: string)
    ensures forall l :: l in Matches(s) ==> Occurs(EntryText(l), s)
    decreases |s|
  {
    if |s| > 0 {
      match MatchPrefix(s)
      case Some((l, n)) =>
        MatchesOccur(s[n..]);
        assert EntryText(l) <= s;
        forall l' | l' in Matches(s[n..]) ensures Occurs(EntryText(l'), s) {
          OccursInSuffix(EntryText(l'), s, n);
        }
      case None =>
        MatchesOccur(s[1..]);
    }
  }

  lemma MatchesEmpty()
    ensures Matches("") == []
  {
  }

  /** The relation map `pagelinks` returns for a header value. */
  function Links(header: string): map<string, string>
  {
    Assoc.FromPairs(Matches(header))
  }

  /**
   * `pagelinks`: start from an empty map and assign every match's URL to its
   * relation name, in the order the matches occur.
   */
  method PageLinks(header: string) returns (result: map<string, string>)
    ensures result == Links(header)
  {
    result := map[];
    var lines := Matches(header);
    for i := 0 to |lines|
      invariant result == Assoc.FromPairs(lines[..i])
    {
      Assoc.FromPairsSnoc(lines[..i], lines[i].0, lines[i].1);
      assert lines[..i + 1] == lines[..i] + [(lines[i].0, lines[i].1)];
      result := result[lines[i].0 := lines[i].1];
    }
    assert lines[..|lines|] == lines;
  }

  /** A relation that the pattern reads back exactly from its own entry text. */
  predicate WellFormed(l: Link)
  {
    '>' !in l.1 && '\n' !in l.1 && '"' !in l.0 && '\n' !in l.0
  }

  /** Header text holding the entries of `ls`, with `sep` between consecutive entries. */
  function Render(ls: seq<Link>, sep: string): string
  {
    if ls == [] then ""
    else if |ls| == 1 then EntryText(ls[0])
    else EntryText(ls[0]) + sep + Render(ls[1..], sep)
  }

  /** The second group ends at the first quote after `k` when no newline or quote comes before it. */
  lemma {:induction false} CloseQuoteAt(s: string, k: nat, q: nat)
    requires k <= q < |s| && s[q] == '"'
    requires forall m :: k <= m < q ==> s[m] != '"' && s[m] != '\n'
    ensures CloseQuote(s, k) == Some(q)
    decreases q - k
  {
    if k < q {
      CloseQuoteAt(s, k + 1, q);
    }
  }

  /** The first group ends at the first position the rest matches from, when no newline comes before it. */
  lemma {:induction false} UrlEndAt(s: string, j: nat, e: nat)
    requires j <= e <= |s| && Closes(s, e)
    requires forall m :: j <= m < e ==> s[m] != '\n' && !Closes(s, m)
    ensures UrlEnd(s, j) == Some(e)
    decreases e - j
  {
    if j < e {
      UrlEndAt(s, j + 1, e);
    }
  }

  /** The separator can only start at a `>`. */
  lemma ClosesAtBracket(s: string, j: nat)
    requires j <= |s| && Closes(s, j)
    ensures j < |s| && s[j] == '>'
  {
    assert s[j..j + |Separator|][0] == s[j];
  }

  /** Where the parts of an entry sit in a text that starts with it. */
  lemma EntryLayout(l: Link, rest: string)
    ensures var s := EntryText(l) + rest;
      var e := 1 + |l.1|;
      var k := e + |Separator|;
      var q := k + |l.0|;
      && q < |s| && s[0] == '<' && s[q] == '"'
      && s[1..e] == l.1 && s[e..k] == Separator && s[k..q] == l.0
      && (forall m :: 1 <= m < e ==> s[m] == l.1[m - 1])
      && (forall m :: k <= m < q ==> s[m] == l.0[m - k])
  {
    var s := EntryText(l) + rest;
    assert s == "<" + l.1 + Separator + l.0 + "\"" + rest;
  }

  /** A well-formed entry at the front of the text is matched whole, whatever follows. */
  lemma MatchPrefixOfEntry(l: Link, rest: string)
    requires WellFormed(l)
    ensures MatchPrefix(EntryText(l) + rest) == Some((l, |EntryText(l)|))
  {
    var s := EntryText(l) + rest;
    var e := 1 + |l.1|;
    var k := e + |Separator|;
    var q := k + |l.0|;
    EntryLayout(l, rest);
    CloseQuoteAt(s, k, q);
    forall m | 1 <= m < e ensures s[m] != '\n' && !Closes(s, m) {
      if Closes(s, m) {
        ClosesAtBracket(s, m);
      }
    }
    UrlEndAt(s, 1, e);
  }

  /** Text without `<` never starts a match, so the parser skips over it. */
  lemma {:induction false} SkipsText(junk: string, rest: string)
    requires '<' !in junk
    ensures Matches(junk + rest) == Matches(rest)
  {
    var s := junk + rest;
    if junk == [] {
      assert s == rest;
    } else {
      assert s[0] == junk[0];
      assert MatchPrefix(s) == None;
      assert s[1..] == junk[1..] + rest;
      SkipsText(junk[1..], rest);
    }
  }

  /** A well-formed entry at the front is reported first; parsing goes on right after it. */
  lemma MatchesEntry(l: Link, rest: string)
    requires WellFormed(l)
    ensures Matches(EntryText(l) + rest) == [l] + Matches(rest)
  {
    MatchPrefixOfEntry(l, rest);
    var s := EntryText(l) + rest;
    assert s[|EntryText(l)|..] == rest;
  }

  /**
   * Round trip: a header rendered from well-formed relations, with separators
   * that hold no `<`, parses back to exactly those relations, in order.
   */
  lemma {:induction false} MatchesRender(ls: seq<Link>, sep: string)
    requires forall l :: l in ls ==> WellFormed(l)
    requires '<' !in sep
    ensures Matches(Render(ls, sep)) == ls
  {
    RenderThen(ls, sep, "");
    assert Render(ls, sep) + "" == Render(ls, sep);
    assert ls + [] == ls;
  }

  /**
   * A header with entries for next, prev, first and last (in that order, as
   * the service sends them) gives each relation exactly its URL, and no
   * other relation.
   */
  lemma FourRelations(next: string, prev: string, first: string, last: string, sep: string)
    requires forall u :: u in [next, prev, first, last] ==> '>' !in u && '\n' !in u
    requires '<' !in sep
    ensures Links(Render([("next", next), ("prev", prev), ("first", first), ("last", last)], sep))
         == map["next" := next, "prev" := prev, "first" := first, "last" := last]
  {
    var ls: seq<Link> := [("next", next), ("prev", prev), ("first", first), ("last", last)];
    assert WellFormed(ls[0]) && WellFormed(ls[1]) && WellFormed(ls[2]) && WellFormed(ls[3]);
    MatchesRender(ls, sep);
    Assoc.FromPairsSnoc([], ls[0].0, ls[0].1);
    Assoc.FromPairsSnoc(ls[..1], ls[1].0, ls[1].1);
    Assoc.FromPairsSnoc(ls[..2], ls[2].0, ls[2].1);
    Assoc.FromPairsSnoc(ls[..3], ls[3].0, ls[3].1);
    assert [] + [ls[0]] == ls[..1];
    assert ls[..1] + [ls[1]] == ls[..2];
    assert ls[..2] + [ls[2]] == ls[..3];
    assert ls[..3] + [ls[3]] == ls;
  }

  /** A header in which no `<` occurs, the empty header among them, yields the empty map. */
  lemma NoEntryNoLinks(header: string)
    requires '<' !in header
    ensures Links(header) == map[]
  {
    SkipsText(header, "");
    assert header + "" == header;
  }

  /** `Assoc.FromPairsKeys` for relations. */
  lemma LinkKeys(ms: seq<Link>)
    ensures forall rel :: rel in Assoc.FromPairs(ms) <==> exists i :: 0 <= i < |ms| && ms[i].0 == rel
  {
    Assoc.FromPairsKeys(ms);
  }

  /**
   * The keys of the map are exactly the matched relation names, unknown ones
   * included, and each maps to the URL of its last match.
   */
  lemma LinksAreLastMatches(header: string)
    ensures forall rel :: rel in Links(header) <==> exists i :: 0 <= i < |Matches(header)| && Matches(header)[i].0 == rel
    ensures forall rel, i :: Assoc.LastWith(Matches(header), rel, i) ==> Links(header)[rel] == Matches(header)[i].1
  {
    LinkKeys(Matches(header));
    LinkValues(Matches(header));
    assert Links(header) == Assoc.FromPairs(Matches(header));
  }

  /** `Assoc.FromPairsLastWins` for relations. */
  lemma LinkValues(ms: seq<Link>)
    ensures forall rel, i :: Assoc.LastWith(ms, rel, i) ==> rel in Assoc.FromPairs(ms) && Assoc.FromPairs(ms)[rel] == ms[i].1
  {
    forall rel, i | Assoc.LastWith(ms, rel, i) ensures rel in Assoc.FromPairs(ms) && Assoc.FromPairs(ms)[rel] == ms[i].1 {
      Assoc.FromPairsLastWins(ms, rel, i);
    }
  }

  /**
   * Text around the entries that holds no `<` is skipped, not rejected: the
   * entries before and after it are all still reported.
   */
  lemma JunkIsSkipped(before: seq<Link>, junk: string, after: seq<Link>, sep: string)
    requires forall l :: l in before + after ==> WellFormed(l)
    requires '<' !in sep && '<' !in junk
    ensures Matches(Render(before, sep) + junk + Render(after, sep)) == before + after
  {
    MatchesRender(after, sep);
    SkipsText(junk, Render(after, sep));
    RenderThen(before, sep, junk + Render(after, sep));
    assert Render(before, sep) + junk + Render(after, sep) == Render(before, sep) + (junk + Render(after, sep));
  }

  /** Rendering more than one relation puts the first entry, then a separator, then the others. */
  lemma RenderCons(ls: seq<Link>, sep: string, rest: string)
    requires |ls| > 1
    ensures Render(ls, sep) + rest == EntryText(ls[0]) + (sep + (Render(ls[1..], sep) + rest))
  {
  }

  /** Parsing rendered entries followed by more text reports the entries, then what the text holds. */
  lemma {:induction false} RenderThen(ls: seq<Link>, sep: string, rest: string)
    requires forall l :: l in ls ==> WellFormed(l)
    requires '<' !in sep
    ensures Matches(Render(ls, sep) + rest) == ls + Matches(rest)
  {
    if |ls| == 0 {
      assert Render(ls, sep) + rest == rest;
    } else if |ls| == 1 {
      MatchesEntry(ls[0], rest);
    } else {
      var tail := Render(ls[1..], sep) + rest;
      assert WellFormed(ls[0]) && forall l :: l in ls[1..] ==> WellFormed(l);
      RenderCons(ls, sep, rest);
      RenderThen(ls[1..], sep, rest);
      SkipsText(sep, tail);
      MatchesEntry(ls[0], sep + tail);
      assert ls == [ls[0]] + ls[1..];
    }
  }

  /**
   * Because the first group is lazy but may run over anything but a newline,
   * a stray `<` before an entry on the same line is not skipped: the match
   * starts there and the stray text becomes part of the entry's URL.
   */
  lemma StrayBracketJoinsNextEntry(junk: string, l: Link, rest: string)
    requires WellFormed(l)
    requires '\n' !in junk && '>' !in junk
    ensures Matches("<" + junk + EntryText(l) + rest) == [(l.0, junk + "<" + l.1)] + Matches(rest)
  {
    var l' := (l.0, junk + "<" + l.1);
    assert WellFormed(l');
    assert "<" + junk + EntryText(l) + rest == EntryText(l') + rest;
    MatchesEntry(l', rest);
  }

  /** A `<` whose line holds no `>` starts no match. */
  lemma StrayLineFails(junk: string, after: string)
    requires '>' !in junk
    ensures MatchPrefix("<" + (junk + "\n") + after).None?
  {
    var s := "<" + (junk + "\n") + after;
    var nl := 1 + |junk|;
    assert s[nl] == '\n';
    if UrlEnd(s, 1).Some? {
      var u := UrlEnd(s, 1).value;
      ClosesAtBracket(s, u);
    }
  }

  /**
   * When a newline separates a stray `<` from the next entry, the stray text
   * cannot reach the entry and the entry is reported intact.
   */
  lemma NewlineIsolatesStrayBracket(junk: string, l: Link, rest: string)
    requires WellFormed(l)
    requires '<' !in junk && '>' !in junk
    ensures Matches("<" + junk + "\n" + EntryText(l) + rest) == [l] + Matches(rest)
  {
    var after := EntryText(l) + rest;
    var s := "<" + (junk + "\n") + after;
    assert "<" + junk + "\n" + EntryText(l) + rest == s;
    StrayLineFails(junk, after);
    assert s[1..] == (junk + "\n") + after;
    SkipsText(junk + "\n", after);
    MatchesEntry(l, rest);
  }
}
