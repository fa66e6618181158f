/**
 Finding the next page of a paginated storefront listing from the `Link`
 response header, as the customers fetch and the orders fetch each do it:
 split the header at `,`, keep the fragments the filter accepts, cut each
 at its first `;`, strip `<` and `>` from both ends, and follow the first
 result. The two fetches carry their own copy of this logic and the copies
 differ in their filter.
 */
module Links {

  import opened PyJson

  /** The marker both fetches look for. */
  const RelNext: string := "rel=\"next\""

  // ----- Python string operations -----

  /** `t` occurs in `s` starting at position i. */
  predicate OccursAt(s: string, t: string, i: nat) {
    i + |t| <= |s| && s[i..i + |t|] == t
  }

  /** `t in s` for strings. */
  predicate Contains(s: string, t: string) {
    exists i: nat :: i <= |s| && OccursAt(s, t, i)
  }

  /** An occurrence of `t` in `s`, when there is one. */
  lemma Occurrence(s: string, t: string) returns (i: nat)
    requires Contains(s, t)
    ensures i + |t| <= |s| && s[i..i + |t|] == t
  {
    i :| i <= |s| && OccursAt(s, t, i);
  }

  /** The position of the first `c` in `s`. */
  function IndexOf(s: string, c: char): (i: nat)
    requires c in s
    ensures i < |s| && s[i] == c && c !in s[..i]
  {
    if s[0] == c then 0 else 1 + IndexOf(s[1..], c)
  }

  /** `s.split(c)` for a one-character separator: the runs of `s` between
      the occurrences of `c`, so one more piece than there are separators. */
  function Split(s: string, c: char): (r: seq<string>)
    ensures |r| >= 1
    decreases |s|
  {
    if c !in s then [s]
    else
      var i := IndexOf(s, c);
      [s[..i]] + Split(s[i + 1..], c)
  }

  /** `c.join(ps)`. */
  function Join(ps: seq<string>, c: char): string
    requires |ps| >= 1
  {
    if |ps| == 1 then ps[0] else ps[0] + [c] + Join(ps[1..], c)
  }

  /** `s.lstrip(cs)`. */
  function LStrip(s: string, cs: set<char>): string {
    if s != [] && s[0] in cs then LStrip(s[1..], cs) else s
  }

  /** `s.rstrip(cs)`. */
  function RStrip(s: string, cs: set<char>): string {
    if s != [] && s[|s| - 1] in cs then RStrip(s[..|s| - 1], cs) else s
  }

  /** `s.strip(cs)`: both ends. */
  function Strip(s: string, cs: set<char>): string {
    RStrip(LStrip(s, cs), cs)
  }

  // ----- the extraction -----

  /** `link.split(';')[0].strip('<>')`: the part of a fragment before its
      first `;`, without the angle brackets around it. */
  function Clean(link: string): string {
    Strip(Split(link, ';')[0], {'<', '>'})
  }

  /** `[clean(link) for link in links if keep(link)]`. */
  function Comprehension(links: seq<string>, keep: string -> bool, clean: string -> string): seq<string>
    decreases |links|
  {
    if links == [] then []
    else
      var n := |links| - 1;
      Comprehension(links[..n], keep, clean) + (if keep(links[n]) then [clean(links[n])] else [])
  }

  /** The next-page step shared by both fetches: no next page unless the
      header is present, non-empty and mentions `rel="next"`; otherwise
      the first URL the comprehension yields over the header's
      `,`-fragments, and no next page when it yields none. */
  function NextPage(header: Option<string>, keep: string -> bool, clean: string -> string): Option<string> {
    if header.None? || header.value == "" || !Contains(header.value, RelNext) then None
    else
      var urls := Comprehension(Split(header.value, ','), keep, clean);
      if urls != [] then Some(urls[0]) else None
  }

  /** The customers fetch: its filter asks whether the whole header, not
      the fragment, mentions `rel="next"`. */
  function CustomersNextUrl(header: Option<string>): Option<string> {
    NextPage(header, link => header.Some? && Contains(header.value, RelNext), Clean)
  }

  /** The orders fetch's filter: the fragment mentions `rel="next"`. */
  predicate MentionsNext(link: string) {
    Contains(link, RelNext)
  }

  /** The orders fetch: its filter asks whether the fragment mentions
      `rel="next"`. */
  function OrdersNextUrl(header: Option<string>): Option<string> {
    NextPage(header, MentionsNext, Clean)
  }

  // ----- split and join -----

  /** The first `c` of a string is the one after a `c`-free prefix. */
  lemma IndexOfAt(s: string, c: char, p: nat)
    requires p < |s| && s[p] == c && c !in s[..p]
    ensures c in s && IndexOf(s, c) == p
  {
    var i := IndexOf(s, c);
  }

  /** No piece of a split contains the separator. */
  lemma {:induction false} SplitPieces(s: string, c: char)
    ensures forall k :: 0 <= k < |Split(s, c)| ==> c !in Split(s, c)[k]
    decreases |s|
  {
    if c in s {
      var i := IndexOf(s, c);
      SplitPieces(s[i + 1..], c);
    }
  }

  /** Joining the pieces of a split gives back the string. */
  lemma {:induction false} JoinSplit(s: string, c: char)
    ensures Join(Split(s, c), c) == s
    decreases |s|
  {
    if c in s {
      var i := IndexOf(s, c);
      var p, q := s[..i], s[i + 1..];
      assert s == p + [c] + q;
      var ps := Split(q, c);
      assert Split(s, c) == [p] + ps;
      JoinSplit(q, c);
      assert ([p] + ps)[1..] == ps;
    }
  }

  /** Splitting a join gives back the pieces, when no piece contains the
      separator. */
  lemma {:induction false} SplitJoin(ps: seq<string>, c: char)
    requires |ps| >= 1
    requires forall k :: 0 <= k < |ps| ==> c !in ps[k]
    ensures Split(Join(ps, c), c) == ps
    decreases |ps|
  {
    if |ps| > 1 {
      var rest := Join(ps[1..], c);
      assert Join(ps, c) == ps[0] + [c] + rest;
      SplitCons(ps[0], c, rest);
      SplitJoin(ps[1..], c);
      assert [ps[0]] + ps[1..] == ps;
    }
  }

  /** A split cuts at the first separator and goes on with the rest. */
  lemma SplitCons(p: string, c: char, q: string)
    requires c !in p
    ensures Split(p + [c] + q, c) == [p] + Split(q, c)
  {
    var s := p + [c] + q;
    assert s[..|p|] == p;
    IndexOfAt(s, c, |p|);
    assert s[|p| + 1..] == q;
  }

  /** The first piece of a split is everything before the first separator. */
  lemma FirstPiece(p: string, c: char, q: string)
    requires c !in p
    ensures Split(p + [c] + q, c)[0] == p
  {
    SplitCons(p, c, q);
  }

  // ----- containment -----

  /** An occurrence of a separator-free string in a join lies inside one
      piece. */
  lemma {:induction false} ContainsPiece(ps: seq<string>, c: char, t: string)
    requires |ps| >= 1
    requires c !in t
    requires Contains(Join(ps, c), t)
    ensures exists k :: 0 <= k < |ps| && Contains(ps[k], t)
    decreases |ps|
  {
    var i := Occurrence(Join(ps, c), t);
    if |ps| == 1 {
      assert Contains(ps[0], t);
    } else {
      var p := ps[0];
      var rest := Join(ps[1..], c);
      var s := p + [c] + rest;
      assert s == Join(ps, c);
      assert s[|p|] == c;
      OccurrenceChars(s, t, i);
      if i + |t| <= |p| {
        assert s[i..i + |t|] == p[i..i + |t|];
        assert OccursAt(p, t, i);
      } else {
        assert i > |p|;
        var i': nat := i - |p| - 1;
        assert s[i..i + |t|] == rest[i'..i' + |t|];
        assert OccursAt(rest, t, i');
        ContainsPiece(ps[1..], c, t);
        var k :| 0 <= k < |ps| - 1 && Contains(ps[1..][k], t);
        assert ps[k + 1] == ps[1..][k];
      }
    }
  }

  /** The characters of an occurrence are those of the string found. */
  lemma OccurrenceChars(s: string, t: string, i: nat)
    requires i + |t| <= |s| && s[i..i + |t|] == t
    ensures forall m :: i <= m < i + |t| ==> s[m] == t[m - i]
  {
    forall m | i <= m < i + |t| ensures s[m] == t[m - i] {
      assert s[i..i + |t|][m - i] == s[m];
    }
  }

  /** A piece's occurrence is an occurrence in the join. */
  lemma {:induction false} PieceContained(ps: seq<string>, c: char, t: string, k: nat)
    requires k < |ps|
    requires Contains(ps[k], t)
    ensures Contains(Join(ps, c), t)
    decreases |ps|
  {
    var i := Occurrence(ps[k], t);
    var p := ps[0];
    if |ps| == 1 {
    } else if k == 0 {
      var s := Join(ps, c);
      assert s == p + ([c] + Join(ps[1..], c));
      assert s[i..i + |t|] == p[i..i + |t|];
      assert OccursAt(s, t, i);
    } else {
      var rest := Join(ps[1..], c);
      assert ps[1..][k - 1] == ps[k];
      PieceContained(ps[1..], c, t, k - 1);
      var j := Occurrence(rest, t);
      var s := Join(ps, c);
      assert s == (p + [c]) + rest;
      assert s[|p| + 1 + j..|p| + 1 + j + |t|] == rest[j..j + |t|];
      assert OccursAt(s, t, |p| + 1 + j);
    }
  }

  /** A string mentions `rel="next"` exactly when one of its `,`-fragments
      does (the marker has no comma in it). */
  lemma ContainsFragment(h: string)
    ensures Contains(h, RelNext) <==> exists k :: 0 <= k < |Split(h, ',')| && Contains(Split(h, ',')[k], RelNext)
  {
    var fs := Split(h, ',');
    JoinSplit(h, ',');
    if Contains(h, RelNext) {
      ContainsPiece(fs, ',', RelNext);
    }
    if exists k :: 0 <= k < |fs| && Contains(fs[k], RelNext) {
      var k :| 0 <= k < |fs| && Contains(fs[k], RelNext);
      PieceContained(fs, ',', RelNext, k);
    }
  }

  /** Nothing contains a string longer than itself; in particular the
      empty header does not mention `rel="next"`. */
  lemma ContainsLength(s: string, t: string)
    requires Contains(s, t)
    ensures |t| <= |s|
  {
  }

  // ----- strip -----

  /** `lstrip` removes a prefix made of stripped characters, and stops at
      the first character that is not one. */
  lemma {:induction false} LStripBounds(s: string, cs: set<char>) returns (i: nat)
    ensures i <= |s| && LStrip(s, cs) == s[i..]
    ensures forall k :: 0 <= k < i ==> s[k] in cs
    ensures i < |s| ==> s[i] !in cs
    decreases |s|
  {
    if s != [] && s[0] in cs {
      var i' := LStripBounds(s[1..], cs);
      i := i' + 1;
      assert s[1..][i'..] == s[i..];
      forall k | 0 <= k < i ensures s[k] in cs {
        if k > 0 { assert s[k] == s[1..][k - 1]; }
      }
    } else {
      i := 0;
    }
  }

  /** `rstrip` removes a suffix made of stripped characters, and stops at
      the last character that is not one. */
  lemma {:induction false} RStripBounds(s: string, cs: set<char>) returns (j: nat)
    ensures j <= |s| && RStrip(s, cs) == s[..j]
    ensures forall k :: j <= k < |s| ==> s[k] in cs
    ensures j > 0 ==> s[j - 1] !in cs
    decreases |s|
  {
    if s != [] && s[|s| - 1] in cs {
      var n := |s| - 1;
      j := RStripBounds(s[..n], cs);
      assert s[..n][..j] == s[..j];
      forall k | j <= k < |s| ensures s[k] in cs {
        if k < n { assert s[k] == s[..n][k]; }
      }
    } else {
      j := |s|;
    }
  }

  /** `strip` keeps the middle run s[i..j]: everything before i and from j
      on is a stripped character, and the run neither starts nor ends with
      one. */
  lemma StripBounds(s: string, cs: set<char>) returns (i: nat, j: nat)
    ensures i <= j <= |s| && Strip(s, cs) == s[i..j]
    ensures forall k :: 0 <= k < i ==> s[k] in cs
    ensures forall k :: j <= k < |s| ==> s[k] in cs
    ensures i < j ==> s[i] !in cs && s[j - 1] !in cs
  {
    i := LStripBounds(s, cs);
    var l := s[i..];
    var j' := RStripBounds(l, cs);
    j := i + j';
    assert l[..j'] == s[i..j];
    forall k | j <= k < |s| ensures s[k] in cs {
      assert s[k] == l[k - i];
    }
    if i < j {
      assert s[j - 1] == l[j' - 1];
    }
  }

  // ----- the comprehension -----

  /** The comprehension yields nothing exactly when no link is kept, and
      otherwise starts with the cleaned first kept link. */
  lemma {:induction false} ComprehensionFirst(links: seq<string>, keep: string -> bool, clean: string -> string)
    ensures Comprehension(links, keep, clean) == [] <==> forall k :: 0 <= k < |links| ==> !keep(links[k])
    ensures Comprehension(links, keep, clean) != [] ==>
      exists k :: 0 <= k < |links| && keep(links[k]) && (forall j :: 0 <= j < k ==> !keep(links[j])) &&
        Comprehension(links, keep, clean)[0] == clean(links[k])
    decreases |links|
  {
    if links != [] {
      var n := |links| - 1;
      var front := links[..n];
      ComprehensionFirst(front, keep, clean);
      assert forall k :: 0 <= k < n ==> front[k] == links[k];
      if Comprehension(front, keep, clean) != [] {
        var k :| 0 <= k < n && keep(front[k]) && (forall j :: 0 <= j < k ==> !keep(front[j])) &&
          Comprehension(front, keep, clean)[0] == clean(front[k]);
        assert keep(links[k]) && forall j :: 0 <= j < k ==> !keep(links[j]);
      } else if keep(links[n]) {
        assert forall j :: 0 <= j < n ==> !keep(links[j]);
      }
    }
  }

  // ----- what each fetch extracts -----

  /** The orders fetch has a next page exactly when the header mentions
      `rel="next"`, and it is the cleaned first fragment that does. */
  lemma OrdersNextUrlSpec(header: Option<string>)
    ensures OrdersNextUrl(header).Some? <==> header.Some? && Contains(header.value, RelNext)
    ensures OrdersNextUrl(header).Some? ==>
      var fs := Split(header.value, ',');
      exists k :: 0 <= k < |fs| && Contains(fs[k], RelNext) && (forall j :: 0 <= j < k ==> !Contains(fs[j], RelNext)) &&
        OrdersNextUrl(header).value == Clean(fs[k])
  {
    PerFragmentSpec(header, Clean);
  }

  /** With a per-fragment filter, whatever the cleaning: a next page exactly
      when the header mentions `rel="next"`, and it is the first fragment
      that does, cleaned. */
  lemma PerFragmentSpec(header: Option<string>, clean: string -> string)
    ensures NextPage(header, MentionsNext, clean).Some? <==> header.Some? && Contains(header.value, RelNext)
    ensures NextPage(header, MentionsNext, clean).Some? ==>
      var fs := Split(header.value, ',');
      exists k :: 0 <= k < |fs| && Contains(fs[k], RelNext) && (forall j :: 0 <= j < k ==> !Contains(fs[j], RelNext)) &&
        NextPage(header, MentionsNext, clean).value == clean(fs[k])
  {
    if header.Some? && Contains(header.value, RelNext) {
      var h := header.value;
      ContainsLength(h, RelNext);
      ContainsFragment(h);
      ComprehensionFirst(Split(h, ','), MentionsNext, clean);
    }
  }

  /** The customers fetch has a next page exactly when the header mentions
      `rel="next"`, and it is always the cleaned first fragment of the
      header, whatever that fragment's relation. */
  lemma CustomersNextUrlSpec(header: Option<string>)
    ensures CustomersNextUrl(header).Some? <==> header.Some? && Contains(header.value, RelNext)
    ensures CustomersNextUrl(header).Some? ==>
      CustomersNextUrl(header).value == Clean(Split(header.value, ',')[0])
  {
    if header.Some? && Contains(header.value, RelNext) {
      var h := header.value;
      ContainsLength(h, RelNext);
      ComprehensionFirst(Split(h, ','), link => header.Some? && Contains(header.value, RelNext), Clean);
    }
  }

  // ----- a header as the storefront writes it -----

  /** A link as the storefront writes it: `<url>; rel="rel"`. */
  function LinkEntry(url: string, rel: string): string {
    "<" + url + ">; rel=\"" + rel + "\""
  }

  /** The entries of a header joined with `, `: every fragment after the
      first starts with a space. */
  function Fragments(entries: seq<(string, string)>): (r: seq<string>)
    ensures |r| == |entries|
  {
    seq(|entries|, i requires 0 <= i < |entries| => (if i == 0 then "" else " ") + LinkEntry(entries[i].0, entries[i].1))
  }

  /** The whole `Link` header. */
  function LinkHeader(entries: seq<(string, string)>): string
    requires |entries| >= 1
  {
    Join(Fragments(entries), ',')
  }

  /** A URL the header can carry unambiguously: non-empty, and free of the
      characters the extraction splits or strips at and of quotes. */
  predicate PlainUrl(url: string) {
    url != [] && ',' !in url && ';' !in url && '<' !in url && '>' !in url && '"' !in url
  }

  /** A relation name without commas or quotes. */
  predicate PlainRel(rel: string) {
    ',' !in rel && '"' !in rel
  }

  predicate WellFormed(entries: seq<(string, string)>) {
    |entries| >= 1 && forall i :: 0 <= i < |entries| ==> PlainUrl(entries[i].0) && PlainRel(entries[i].1)
  }

  /** The first entry whose relation is `next`. */
  predicate FirstNext(entries: seq<(string, string)>, k: nat) {
    k < |entries| && entries[k].1 == "next" && forall j :: 0 <= j < k ==> entries[j].1 != "next"
  }

  /** A fragment of such a header splits back into its entries. */
  lemma SplitHeader(entries: seq<(string, string)>)
    requires WellFormed(entries)
    ensures Split(LinkHeader(entries), ',') == Fragments(entries)
  {
    var fs := Fragments(entries);
    forall k | 0 <= k < |fs| ensures ',' !in fs[k] {
      assert fs[k] == (if k == 0 then "" else " ") + LinkEntry(entries[k].0, entries[k].1);
    }
    SplitJoin(fs, ',');
  }

  /** The only quotes of a fragment are the two around its relation. */
  lemma QuotePositions(pre: string, url: string, rel: string, p: nat)
    requires '"' !in pre && '"' !in url && '"' !in rel
    requires p < |pre + LinkEntry(url, rel)| && (pre + LinkEntry(url, rel))[p] == '"'
    ensures p == |pre| + |url| + 8 || p == |pre| + |url| + 9 + |rel|
  {
    var x := pre + "<" + url + ">; rel=";
    var s := pre + LinkEntry(url, rel);
    assert s == x + "\"" + rel + "\"";
  }

  /** A fragment whose relation is `next` mentions `rel="next"`. */
  lemma NextEntryMentionsNext(pre: string, url: string)
    ensures Contains(pre + LinkEntry(url, "next"), RelNext)
  {
    var s := pre + LinkEntry(url, "next");
    var a := pre + "<" + url + ">; ";
    assert s == a + RelNext;
    assert s[|a|..|a| + |RelNext|] == RelNext;
    assert OccursAt(s, RelNext, |a|);
  }

  /** A fragment that mentions `rel="next"` has the relation `next`: the
      marker's two quotes can only be the fragment's two quotes. */
  lemma MentionIsRelation(pre: string, url: string, rel: string)
    requires '"' !in pre && '"' !in url && '"' !in rel
    requires Contains(pre + LinkEntry(url, rel), RelNext)
    ensures rel == "next"
  {
    var s := pre + LinkEntry(url, rel);
    var q := |pre| + |url| + 8;
    var i := Occurrence(s, RelNext);
    OccurrenceChars(s, RelNext, i);
    assert s[i + 4] == '"' && s[i + 9] == '"';
    QuotePositions(pre, url, rel, i + 4);
    QuotePositions(pre, url, rel, i + 9);
    assert i + 4 == q && |rel| == 4;
    RelationSlice(pre, url, rel);
    assert s[q + 1..q + 5] == s[i..i + 10][5..9];
    assert RelNext[5..9] == "next";
  }

  /** Where a fragment's relation sits in it. */
  lemma RelationSlice(pre: string, url: string, rel: string)
    ensures |pre + LinkEntry(url, rel)| == |pre| + |url| + 10 + |rel|
    ensures (pre + LinkEntry(url, rel))[|pre| + |url| + 9..|pre| + |url| + 9 + |rel|] == rel
  {
    var x := pre + "<" + url + ">; rel=\"";
    assert pre + LinkEntry(url, rel) == x + rel + "\"";
  }

  /** A fragment mentions `rel="next"` exactly when its relation is
      `next`. */
  lemma EntryMentionsNext(pre: string, url: string, rel: string)
    requires '"' !in pre && '"' !in url && '"' !in rel
    ensures Contains(pre + LinkEntry(url, rel), RelNext) <==> rel == "next"
  {
    if rel == "next" {
      NextEntryMentionsNext(pre, url);
    }
    if Contains(pre + LinkEntry(url, rel), RelNext) {
      MentionIsRelation(pre, url, rel);
    }
  }

  /** Fragment k of a well-formed header mentions `rel="next"` exactly when
      entry k's relation is `next`. */
  lemma FragmentMentionsNext(entries: seq<(string, string)>, k: nat)
    requires WellFormed(entries) && k < |entries|
    ensures Contains(Fragments(entries)[k], RelNext) <==> entries[k].1 == "next"
  {
    var pre := if k == 0 then "" else " ";
    assert Fragments(entries)[k] == pre + LinkEntry(entries[k].0, entries[k].1);
    EntryMentionsNext(pre, entries[k].0, entries[k].1);
  }

  /** `rstrip` of a run that ends in one stripped character after a kept
      one removes just that character. */
  lemma RStripOne(s: string, x: char, cs: set<char>)
    requires s != [] && s[|s| - 1] !in cs && x in cs
    ensures RStrip(s + [x], cs) == s
  {
    assert (s + [x])[..|s|] == s;
  }

  /** Cutting a fragment of such a header at its first `;` leaves the
      bracketed URL, with the space in front of it when there is one. */
  lemma CutFragment(pre: string, url: string, rel: string)
    requires pre == "" || pre == " "
    requires PlainUrl(url)
    ensures Split(pre + LinkEntry(url, rel), ';')[0] == pre + "<" + url + ">"
  {
    var bracketed := pre + "<" + url + ">";
    assert pre + LinkEntry(url, rel) == bracketed + [';'] + (" rel=\"" + rel + "\"");
    forall k | 0 <= k < |bracketed| ensures bracketed[k] != ';' {
      if |pre| + 1 <= k < |pre| + 1 + |url| {
        assert bracketed[k] == url[k - |pre| - 1];
      }
    }
    FirstPiece(bracketed, ';', " rel=\"" + rel + "\"");
  }

  /** Stripping the brackets off `<url>` gives the URL. */
  lemma StripBrackets(url: string)
    requires PlainUrl(url)
    ensures Strip("<" + url + ">", {'<', '>'}) == url
  {
    var cs := {'<', '>'};
    var s := "<" + url + ">";
    assert s[0] == '<' && s[1..] == url + ">";
    assert LStrip(url + ">", cs) == url + ">" by {
      assert (url + ">")[0] == url[0];
    }
    RStripOne(url, '>', cs);
  }

  /** Stripping brackets off ` <url>` removes only the closing one: the
      space stops it at the front. */
  lemma StripSpacedBrackets(url: string)
    requires PlainUrl(url)
    ensures Strip(" <" + url + ">", {'<', '>'}) == " <" + url
  {
    var cs := {'<', '>'};
    var s := " <" + url + ">";
    assert s[0] == ' ';
    assert s == (" <" + url) + ">";
    RStripOne(" <" + url, '>', cs);
  }

  /** Cleaning the first fragment of such a header gives its URL. */
  lemma CleanFirstFragment(url: string, rel: string)
    requires PlainUrl(url)
    ensures Clean(LinkEntry(url, rel)) == url
  {
    CutFragment("", url, rel);
    assert "" + LinkEntry(url, rel) == LinkEntry(url, rel);
    assert "" + "<" + url + ">" == "<" + url + ">";
    StripBrackets(url);
  }

  /** Cleaning a later fragment keeps the space and the `<` in front of
      its URL. */
  lemma CleanLaterFragment(url: string, rel: string)
    requires PlainUrl(url)
    ensures Clean(" " + LinkEntry(url, rel)) == " <" + url
  {
    CutFragment(" ", url, rel);
    assert " " + "<" + url + ">" == " <" + url + ">";
    StripSpacedBrackets(url);
  }

  /** On a header as the storefront writes it, the customers fetch follows
      the first link whenever any link is `next`, whatever the first
      link's relation. */
  lemma CustomersTakesFirstLink(entries: seq<(string, string)>)
    requires WellFormed(entries)
    ensures CustomersNextUrl(Some(LinkHeader(entries))) ==
      if exists k :: 0 <= k < |entries| && entries[k].1 == "next" then Some(entries[0].0) else None
  {
    var h := LinkHeader(entries);
    SplitHeader(entries);
    ContainsFragment(h);
    CustomersNextUrlSpec(Some(h));
    forall k | 0 <= k < |entries| ensures Contains(Fragments(entries)[k], RelNext) <==> entries[k].1 == "next" {
      FragmentMentionsNext(entries, k);
    }
    assert Fragments(entries)[0] == LinkEntry(entries[0].0, entries[0].1);
    CleanFirstFragment(entries[0].0, entries[0].1);
  }

  /** On a header as the storefront writes it, a per-fragment filter picks
      the fragment of the first `next` link. */
  lemma PerFragmentOnHeader(entries: seq<(string, string)>, k: nat, clean: string -> string)
    requires WellFormed(entries) && FirstNext(entries, k)
    ensures NextPage(Some(LinkHeader(entries)), MentionsNext, clean) == Some(clean(Fragments(entries)[k]))
  {
    var h := LinkHeader(entries);
    var fs := Fragments(entries);
    SplitHeader(entries);
    FragmentMentionsNext(entries, k);
    assert Contains(h, RelNext) by {
      PieceContained(fs, ',', RelNext, k);
    }
    PerFragmentSpec(Some(h), clean);
    var k' :| 0 <= k' < |fs| && Contains(fs[k'], RelNext) && (forall j :: 0 <= j < k' ==> !Contains(fs[j], RelNext)) &&
      NextPage(Some(h), MentionsNext, clean).value == clean(fs[k']);
    FragmentMentionsNext(entries, k');
    assert k' == k;
  }

  /** On such a header without a `next` link, a per-fragment filter finds
      no next page. */
  lemma PerFragmentStops(entries: seq<(string, string)>, clean: string -> string)
    requires WellFormed(entries)
    requires forall k :: 0 <= k < |entries| ==> entries[k].1 != "next"
    ensures NextPage(Some(LinkHeader(entries)), MentionsNext, clean) == None
  {
    var h := LinkHeader(entries);
    SplitHeader(entries);
    ContainsFragment(h);
    forall k | 0 <= k < |entries| ensures !Contains(Fragments(entries)[k], RelNext) {
      FragmentMentionsNext(entries, k);
    }
    PerFragmentSpec(Some(h), clean);
  }

  /** The fragment of entry k is its link, after a space unless it is the
      first. */
  lemma FragmentAt(entries: seq<(string, string)>, k: nat)
    requires k < |entries|
    ensures k == 0 ==> Fragments(entries)[k] == LinkEntry(entries[k].0, entries[k].1)
    ensures k > 0 ==> Fragments(entries)[k] == " " + LinkEntry(entries[k].0, entries[k].1)
  {
  }

  /** On a header as the storefront writes it, the orders fetch takes the
      first `next` link: its URL when it is the header's first link, and
      the URL with a space and a `<` in front of it otherwise. */
  lemma OrdersTakesNextLink(entries: seq<(string, string)>, k: nat)
    requires WellFormed(entries) && FirstNext(entries, k)
    ensures OrdersNextUrl(Some(LinkHeader(entries))) ==
      Some(if k == 0 then entries[k].0 else " <" + entries[k].0)
  {
    PerFragmentOnHeader(entries, k, Clean);
    FragmentAt(entries, k);
    if k == 0 {
      CleanFirstFragment(entries[k].0, entries[k].1);
    } else {
      CleanLaterFragment(entries[k].0, entries[k].1);
    }
  }

  /** On such a header without a `next` link, the orders fetch stops. */
  lemma OrdersStopsWithoutNext(entries: seq<(string, string)>)
    requires WellFormed(entries)
    requires forall k :: 0 <= k < |entries| ==> entries[k].1 != "next"
    ensures OrdersNextUrl(Some(LinkHeader(entries))) == None
  {
    PerFragmentStops(entries, Clean);
  }

  /** The page after the first one carries a `previous` link before its
      `next` link; the customers fetch then goes back to the previous
      page instead of forward. */
  lemma CustomersFollowsPrevious(previous: string, next: string)
    requires PlainUrl(previous) && PlainUrl(next)
    ensures CustomersNextUrl(Some(LinkHeader([(previous, "previous"), (next, "next")]))) == Some(previous)
  {
    var entries := [(previous, "previous"), (next, "next")];
    assert WellFormed(entries);
    assert entries[1].1 == "next";
    CustomersTakesFirstLink(entries);
  }

  /** On that same page, the orders fetch finds the `next` link but keeps
      the space and `<` that follow the comma. */
  lemma OrdersKeepsBracket(previous: string, next: string)
    requires PlainUrl(previous) && PlainUrl(next)
    ensures OrdersNextUrl(Some(LinkHeader([(previous, "previous"), (next, "next")]))) == Some(" <" + next)
  {
    var entries := [(previous, "previous"), (next, "next")];
    assert WellFormed(entries);
    assert FirstNext(entries, 1);
    OrdersTakesNextLink(entries, 1);
  }

  // ----- the extraction as intended -----

  /** The characters `str.strip()` removes, as far as a header can carry
      them. */
  const Whitespace: set<char> := {' ', '\t', '\n', '\r', '\U{000B}', '\U{000C}'}

  /** `link.split(';')[0].strip().strip('<>')`. */
  function CleanTrimmed(link: string): string {
    Strip(Strip(Split(link, ';')[0], Whitespace), {'<', '>'})
  }

  /** The next-page step as both fetches evidently mean it: a per-fragment
      filter, and whitespace trimmed before the brackets. */
  function IntendedNextUrl(header: Option<string>): Option<string> {
    NextPage(header, MentionsNext, CleanTrimmed)
  }

  /** Trimming whitespace off a cut fragment leaves `<url>`. */
  lemma TrimFragment(pre: string, url: string)
    requires pre == "" || pre == " "
    requires PlainUrl(url)
    ensures Strip(pre + "<" + url + ">", Whitespace) == "<" + url + ">"
  {
    var inner := "<" + url + ">";
    assert inner[0] == '<' && inner[|inner| - 1] == '>';
    if pre == " " {
      assert pre + "<" + url + ">" == [' '] + inner;
      assert LStrip([' '] + inner, Whitespace) == LStrip(inner, Whitespace) by {
        assert ([' '] + inner)[1..] == inner;
      }
    } else {
      assert pre + "<" + url + ">" == inner;
    }
  }

  /** Trimming then cleaning any fragment of such a header gives its URL. */
  lemma CleanTrimmedFragment(pre: string, url: string, rel: string)
    requires pre == "" || pre == " "
    requires PlainUrl(url)
    ensures CleanTrimmed(pre + LinkEntry(url, rel)) == url
  {
    CutFragment(pre, url, rel);
    TrimFragment(pre, url);
    StripBrackets(url);
  }

  /** On a header as the storefront writes it, the intended step follows
      the first `next` link's URL, wherever that link stands. */
  lemma IntendedTakesNextLink(entries: seq<(string, string)>, k: nat)
    requires WellFormed(entries) && FirstNext(entries, k)
    ensures IntendedNextUrl(Some(LinkHeader(entries))) == Some(entries[k].0)
  {
    PerFragmentOnHeader(entries, k, CleanTrimmed);
    FragmentAt(entries, k);
    if k == 0 {
      assert Fragments(entries)[k] == "" + LinkEntry(entries[k].0, entries[k].1);
      CleanTrimmedFragment("", entries[k].0, entries[k].1);
    } else {
      CleanTrimmedFragment(" ", entries[k].0, entries[k].1);
    }
  }

  /** On such a header without a `next` link, the intended step stops. */
  lemma IntendedStopsWithoutNext(entries: seq<(string, string)>)
    requires WellFormed(entries)
    requires forall k :: 0 <= k < |entries| ==> entries[k].1 != "next"
    ensures IntendedNextUrl(Some(LinkHeader(entries))) == None
  {
    PerFragmentStops(entries, CleanTrimmed);
  }

  /** On the page with a `previous` link before its `next` link, the
      intended step goes forward, to the `next` URL itself. */
  lemma IntendedFollowsNext(previous: string, next: string)
    requires PlainUrl(previous) && PlainUrl(next)
    ensures IntendedNextUrl(Some(LinkHeader([(previous, "previous"), (next, "next")]))) == Some(next)
  {
    var entries := [(previous, "previous"), (next, "next")];
    assert WellFormed(entries);
    assert FirstNext(entries, 1);
    IntendedTakesNextLink(entries, 1);
  }
}
