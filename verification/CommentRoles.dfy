/** Which comments become trailing, detached and leading comments of a location:
    attributeComments and its helpers in sourceinfo/source_code_info.go, on the tables of
    ast/file_info.go. A list of comments is a list of positions in the comment table. */
module CommentRoles {
  import opened Common
  import opened Utf8
  import opened FileInfo
  import LexerBook

  // What the text of the file says about comments and tokens: the lines where they start and
  // end, whether a comment is in the // style, and the text of a token. `extraComments` is
  // the option of the generator.
  datatype Layout = Layout(first: nat -> int, last: nat -> int, singleLine: nat -> bool,
                           start: nat -> int, end: nat -> int, text: nat -> string, extraComments: bool)

  datatype Roles = Roles(trail: seq<nat>, detached: seq<seq<nat>>, lead: seq<nat>)

  function Flat(gs: seq<seq<nat>>): seq<nat> {
    if gs == [] then [] else Flat(gs[..|gs| - 1]) + gs[|gs| - 1]
  }

  predicate NoneEmpty(gs: seq<seq<nat>>) { forall i :: 0 <= i < |gs| ==> gs[i] != [] }

  lemma {:induction false} FlatConcat(a: seq<seq<nat>>, b: seq<seq<nat>>)
    ensures Flat(a + b) == Flat(a) + Flat(b)
    decreases |b|
  {
    if b == [] {
      assert a + b == a;
    } else {
      var c := b[..|b| - 1];
      FlatConcat(a, c);
      assert (a + b)[..|a + b| - 1] == a + c;
      assert (a + b)[|a + b| - 1] == b[|b| - 1];
    }
  }

  lemma FlatOne(g: seq<nat>)
    ensures Flat([g]) == g
  {
    assert [g][..0] == [];
  }

  // --- Grouping -------------------------------------------------------------------------------

  // Comment `b`, which follows `a`, does not continue the group of `a`.
  predicate Breaks(y: Layout, a: nat, b: nat) {
    !y.singleLine(b) || y.singleLine(a) != y.singleLine(b) || y.first(b) > y.last(a) + 1
  }

  // The groups are the longest runs without a break.
  ghost predicate WellGrouped(y: Layout, gs: seq<seq<nat>>) {
    && NoneEmpty(gs)
    && (forall i: nat :: i < |gs| ==> Unbroken(y, gs[i]))
    && (forall i: nat :: i + 1 < |gs| ==> BrokenAfter(y, gs, i))
  }

  ghost predicate Unbroken(y: Layout, g: seq<nat>) {
    forall j: nat :: j + 1 < |g| ==> !Breaks(y, g[j], g[j + 1])
  }

  ghost predicate BrokenAfter(y: Layout, gs: seq<seq<nat>>, i: nat) {
    i + 1 < |gs| && gs[i] != [] && gs[i + 1] != [] && Breaks(y, gs[i][|gs[i]| - 1], gs[i + 1][0])
  }

  // The groups of the first `n` comments.
  function Groups(y: Layout, cs: seq<nat>, n: nat): (gs: seq<seq<nat>>)
    requires n <= |cs|
    ensures n > 0 ==> gs != []
  {
    if n == 0 then []
    else Extended(Groups(y, cs, n - 1), cs[n - 1], n == 1 || Breaks(y, cs[n - 2], cs[n - 1]))
  }

  // A comment that starts a group or continues the last one.
  function Extended(gs: seq<seq<nat>>, c: nat, starts: bool): (gs': seq<seq<nat>>)
    requires starts || gs != []
    ensures gs' != []
  {
    if starts then gs + [[c]] else gs[..|gs| - 1] + [gs[|gs| - 1] + [c]]
  }

  lemma ExtendedFlat(gs: seq<seq<nat>>, c: nat, starts: bool)
    requires NoneEmpty(gs) && (starts || gs != [])
    ensures Flat(Extended(gs, c, starts)) == Flat(gs) + [c] && NoneEmpty(Extended(gs, c, starts))
  {
    if starts {
      assert (gs + [[c]])[..|gs|] == gs;
    } else {
      var k := |gs| - 1;
      var gs' := gs[..k] + [gs[k] + [c]];
      assert gs'[..k] == gs[..k] && gs'[k] == gs[k] + [c];
      assert Flat(gs') == Flat(gs[..k]) + (gs[k] + [c]);
    }
  }

  /** Grouping keeps all comments in order, and no group is empty. */
  lemma {:induction false} GroupsKeepAll(y: Layout, cs: seq<nat>, n: nat)
    requires n <= |cs|
    ensures Flat(Groups(y, cs, n)) == cs[..n] && NoneEmpty(Groups(y, cs, n))
  {
    if n > 0 {
      GroupsKeepAll(y, cs, n - 1);
      NextIsKept(Groups(y, cs, n - 1), cs, n, n == 1 || Breaks(y, cs[n - 2], cs[n - 1]));
    }
  }

  lemma NextIsKept(gs: seq<seq<nat>>, cs: seq<nat>, n: nat, starts: bool)
    requires 0 < n <= |cs| && Flat(gs) == cs[..n - 1] && NoneEmpty(gs) && (starts || gs != [])
    ensures Flat(Extended(gs, cs[n - 1], starts)) == cs[..n] && NoneEmpty(Extended(gs, cs[n - 1], starts))
  {
    ExtendedFlat(gs, cs[n - 1], starts);
    assert cs[..n] == cs[..n - 1] + [cs[n - 1]];
  }

  ghost predicate EndsWith(gs: seq<seq<nat>>, c: nat) {
    gs != [] && gs[|gs| - 1] != [] && gs[|gs| - 1][|gs[|gs| - 1]| - 1] == c
  }

  lemma ExtendedGrouped(y: Layout, gs: seq<seq<nat>>, prev: nat, c: nat)
    requires WellGrouped(y, gs) && EndsWith(gs, prev)
    ensures WellGrouped(y, Extended(gs, c, Breaks(y, prev, c))) && EndsWith(Extended(gs, c, Breaks(y, prev, c)), c)
  {
    var gs' := Extended(gs, c, Breaks(y, prev, c));
    forall i: nat | i + 1 < |gs'|
      ensures BrokenAfter(y, gs', i)
    {
      assert i + 1 < |gs| ==> BrokenAfter(y, gs, i);
    }
    forall i: nat | i < |gs'|
      ensures Unbroken(y, gs'[i])
    {
      assert i < |gs| ==> Unbroken(y, gs[i]);
    }
  }

  /** The groups are the longest runs of // comments on adjacent lines, or single comments. */
  lemma {:induction false} GroupsAreMaximal(y: Layout, cs: seq<nat>, n: nat)
    requires n <= |cs|
    ensures WellGrouped(y, Groups(y, cs, n)) && (n > 0 ==> EndsWith(Groups(y, cs, n), cs[n - 1]))
  {
    if n == 1 {
      assert Groups(y, cs, 0) == [] && Groups(y, cs, 1) == [[cs[0]]];
    } else if n > 1 {
      GroupsAreMaximal(y, cs, n - 1);
      ExtendedGrouped(y, Groups(y, cs, n - 1), cs[n - 2], cs[n - 1]);
    }
  }

  // `groups` are complete, and the last one starts at `start`.
  ghost predicate OpenAt(y: Layout, cs: seq<nat>, i: nat, groups: seq<seq<nat>>, start: nat) {
    start < i <= |cs| && Groups(y, cs, i) == groups + [cs[start..i]]
  }

  lemma OpenFirst(y: Layout, cs: seq<nat>)
    requires cs != []
    ensures OpenAt(y, cs, 1, [], 0)
  {
    assert Groups(y, cs, 0) == [] && cs[0..1] == [cs[0]];
  }

  lemma OpenNext(y: Layout, cs: seq<nat>, i: nat, groups: seq<seq<nat>>, start: nat)
    requires OpenAt(y, cs, i, groups, start) && i < |cs|
    ensures if Breaks(y, cs[i - 1], cs[i]) then OpenAt(y, cs, i + 1, groups + [cs[start..i]], i)
            else OpenAt(y, cs, i + 1, groups, start)
  {
    var gs := groups + [cs[start..i]];
    assert gs[..|gs| - 1] == groups && gs[|gs| - 1] == cs[start..i];
    assert cs[start..i + 1] == cs[start..i] + [cs[i]] && cs[i..i + 1] == [cs[i]];
  }

  /** groupComments. */
  method GroupComments(y: Layout, cs: seq<nat>) returns (groups: seq<seq<nat>>)
    ensures groups == Groups(y, cs, |cs|)
  {
    if |cs| == 0 {
      return [];
    }
    groups := [];
    var singleLineStyle, line, start := y.singleLine(cs[0]), y.last(cs[0]), 0;
    OpenFirst(y, cs);
    for i := 1 to |cs|
      invariant OpenAt(y, cs, i, groups, start)
      invariant singleLineStyle == y.singleLine(cs[i - 1]) && line == y.last(cs[i - 1])
    {
      OpenNext(y, cs, i, groups, start);
      var prevSingleLine := singleLineStyle;
      singleLineStyle := y.singleLine(cs[i]);
      if !singleLineStyle || prevSingleLine != singleLineStyle || y.first(cs[i]) > line + 1 {
        groups := groups + [cs[start..i]];
        start := i;
      }
      line := y.last(cs[i]);
    }
    assert cs[start..] == cs[start..|cs|];
    groups := groups + [cs[start..]];
  }

  // --- Roles -------------------------------------------------------------------------------------

  datatype Donation = Donation(trail: seq<nat>, groups: seq<seq<nat>>)

  // Whether the token ends a scope, so that it needs no leading comment.
  predicate EndsScope(text: string) {
    text == "" || (|text| == 1 && text[0] in "}]),;")
  }

  function MaybeDonate(y: Layout, prev: nat, tok: nat, gs: seq<seq<nat>>): (r: Donation)
    requires NoneEmpty(gs)
    ensures r.trail + Flat(r.groups) == Flat(gs) && NoneEmpty(r.groups)
  {
    FlatHead(gs);
    if gs == [] then Donation([], [])
    else
      var g := gs[0];
      if y.first(g[0]) > y.end(prev) + 1 then Donation([], gs)
      else if |gs| > 1 then Donation(g, gs[1..])
      else if y.last(g[|g| - 1]) < y.start(tok) - 1 then Donation(g, [])
      else if EndsScope(y.text(tok)) then
        if !y.extraComments && y.text(tok) != "" && y.first(g[0]) == y.end(prev) && y.last(g[|g| - 1]) == y.start(tok)
        then Donation([], gs)
        else Donation(g, [])
      else Donation([], gs)
  }

  lemma FlatHead(gs: seq<seq<nat>>)
    ensures gs != [] ==> gs[0] + Flat(gs[1..]) == Flat(gs)
  {
    if gs != [] {
      FlatConcat([gs[0]], gs[1..]);
      FlatOne(gs[0]);
      assert [gs[0]] + gs[1..] == gs;
    }
  }

  datatype Attachment = Attachment(groups: seq<seq<nat>>, lead: seq<nat>)

  function MaybeAttach(y: Layout, prev: Option<nat>, tok: nat, hasTrail: bool, gs: seq<seq<nat>>): (r: Attachment)
    requires NoneEmpty(gs)
    ensures Flat(r.groups) + r.lead == Flat(gs) && NoneEmpty(r.groups)
  {
    if gs == [] then Attachment([], [])
    else
      var last := gs[|gs| - 1];
      if |gs| == 1 && !hasTrail && prev.Some? && y.first(last[0]) == y.end(prev.value)
          && y.last(last[|last| - 1]) == y.start(tok)
      then Attachment(gs, [])
      else if y.last(last[|last| - 1]) >= y.start(tok) - 1 then Attachment(gs[..|gs| - 1], last)
      else Attachment(gs, [])
  }

  // The first half of attributeComments: who gets the comments next to the previous token.
  function Donate(y: Layout, prev: Option<nat>, tok: nat, trailing: seq<nat>, gs: seq<seq<nat>>): (r: Donation)
    requires NoneEmpty(gs) && (prev.None? ==> trailing == [])
    ensures r.trail + Flat(r.groups) == trailing + Flat(gs) && NoneEmpty(r.groups)
  {
    if prev.None? then Donation([], gs)
    else if trailing == [] then MaybeDonate(y, prev.value, tok, gs)
    else Donation(trailing, gs)
  }

  // attributeComments: `trailing` and `leading` are the comments that the file's tables
  // attribute to the previous token and to this one.
  function Attribute(y: Layout, prev: Option<nat>, tok: nat, trailing: seq<nat>, leading: seq<nat>): (r: Roles)
    requires prev.None? ==> trailing == []
    ensures r.trail + Flat(r.detached) + r.lead == trailing + leading
    ensures NoneEmpty(r.detached)
  {
    GroupsKeepAll(y, leading, |leading|);
    var gs := Groups(y, leading, |leading|);
    var donation := Donate(y, prev, tok, trailing, gs);
    var attachment := MaybeAttach(y, prev, tok, donation.trail != [], donation.groups);
    Regroup(donation.trail, Flat(attachment.groups), attachment.lead);
    assert leading[..|leading|] == leading;
    Roles(donation.trail, attachment.groups, attachment.lead)
  }

  // --- On the tables of the file ---------------------------------------------------------------------

  datatype Side = Leading | Trailing

  // The table attributes comment `k` to the token, on the given side.
  predicate Belongs(cs: seq<CommentInfo>, side: Side, token: nat, k: int) {
    && 0 <= k < |cs| && cs[k].attributedTo == token
    && (if side == Leading then cs[k].index < token else cs[k].index > token)
  }

  // Those of the first `n` comments that do, in order.
  function Select(cs: seq<CommentInfo>, side: Side, token: nat, n: nat): seq<nat> {
    if n == 0 then [] else Select(cs, side, token, n - 1) + if Belongs(cs, side, token, n - 1) then [n - 1] else []
  }

  function Run(c: Comments): seq<nat> { seq(c.num, i requires 0 <= i < c.num => c.first + i) }

  function Clip(i: int, n: nat): nat { if i < 0 then 0 else if i < n then i else n }

  // A run that holds exactly the comments that belong to the token is the selection.
  lemma {:induction false} RunIsSelection(cs: seq<CommentInfo>, side: Side, token: nat, c: Comments, n: nat)
    requires n <= |cs| && forall k :: 0 <= k < |cs| ==> (InRun(c, k) <==> Belongs(cs, side, token, k))
    ensures Select(cs, side, token, n) == Run(Comments(c.first, Clip(n - c.first, c.num)))
    decreases n
  {
    if n > 0 {
      RunIsSelection(cs, side, token, c, n - 1);
      assert Belongs(cs, side, token, n - 1) <==> InRun(c, n - 1);
    }
  }

  // The roles of the comments between two tokens, or before the first one.
  function RolesAt(y: Layout, cs: seq<CommentInfo>, prev: Option<nat>, tok: nat): Roles {
    Attribute(y, prev, tok, if prev.Some? then Select(cs, Trailing, prev.value, |cs|) else [],
      Select(cs, Leading, tok, |cs|))
  }

  /** attributeComments, with the searches in the file's tables. */
  method AttributeComments(info: FileInfo, y: Layout, prev: Option<nat>, tok: nat) returns (r: Roles)
    requires info.Valid()
    ensures r == RolesAt(y, info.comments, prev, tok)
  {
    ghost var cs := info.comments;
    var leading := info.LeadingComments(tok);
    RunIsSelection(cs, Leading, tok, leading, |cs|);
    var groups := GroupComments(y, Run(leading));
    var trailing := NO_COMMENTS;
    if prev.Some? {
      trailing := info.TrailingComments(prev.value);
      RunIsSelection(cs, Trailing, prev.value, trailing, |cs|);
    }
    GroupsKeepAll(y, Run(leading), leading.num);
    var detached, trail := groups, Run(trailing);
    if prev.Some? && trailing.num == 0 {
      var d := MaybeDonate(y, prev.value, tok, detached);
      trail, detached := d.trail, d.groups;
    }
    var a := MaybeAttach(y, prev, tok, |trail| > 0, detached);
    r := Roles(trail, a.groups, a.lead);
  }

  // --- The two queries -----------------------------------------------------------------------------

  ghost predicate FirstToken(data: seq<byte>, items: seq<ItemSpan>, s: nat) {
    s < |items| && !LexerBook.CommentAt(data, items, s)
      && forall i: nat :: i < s ==> LexerBook.CommentAt(data, items, i)
  }

  lemma SameComment(info: FileInfo, i: nat)
    requires info.Valid() && i < |info.items|
    ensures info.IsComment(i) <==> LexerBook.CommentAt(info.data, info.items, i)
  {
    assert ItemWithin(info.items, i, |info.data|);
  }

  lemma SameComments(info: FileInfo)
    requires info.Valid()
    ensures forall i: nat :: i < |info.items| ==> (info.IsComment(i) <==> LexerBook.CommentAt(info.data, info.items, i))
  {
    forall i: nat | i < |info.items|
      ensures info.IsComment(i) <==> LexerBook.CommentAt(info.data, info.items, i)
    {
      SameComment(info, i);
    }
  }

  /** getLeadingComments for a node that starts with token `s`. */
  method GetLeadingComments(info: FileInfo, y: Layout, s: nat)
    returns (detached: seq<seq<nat>>, lead: seq<nat>, prev: Option<nat>)
    requires info.Valid() && s < |info.items| && !info.IsComment(s)
    ensures var r := RolesAt(y, info.comments, prev, s); detached == r.detached && lead == r.lead
    ensures if prev.Some? then LexerBook.Neighbours(info.data, info.items, prev.value, s)
        else FirstToken(info.data, info.items, s)
  {
    prev := info.PreviousToken(s);
    SameComments(info);
    var r := AttributeComments(info, y, prev, s);
    return r.detached, r.lead, prev;
  }

  /** getTrailingComments for a node that ends with token `e`. */
  method GetTrailingComments(info: FileInfo, y: Layout, e: nat) returns (trail: seq<nat>, next: Option<nat>)
    requires info.Valid() && e < |info.items| && !info.IsComment(e)
    ensures next.Some? ==>
              LexerBook.Neighbours(info.data, info.items, e, next.value)
                && trail == RolesAt(y, info.comments, Some(e), next.value).trail
    ensures next.None? ==> trail == [] && forall s: nat :: !LexerBook.Neighbours(info.data, info.items, e, s)
  {
    next := info.NextToken(e);
    SameComments(info);
    if next.None? {
      return [], None;
    }
    var r := AttributeComments(info, y, Some(e), next.value);
    return r.trail, next;
  }

  lemma NeighboursAreUnique(data: seq<byte>, items: seq<ItemSpan>, p: nat, p': nat, s: nat)
    requires LexerBook.Neighbours(data, items, p, s) && LexerBook.Neighbours(data, items, p', s)
    ensures p == p'
  {
  }

  // --- Every comment has exactly one role -------------------------------------------------------------

  function ItemsOf(cs: seq<CommentInfo>, ks: seq<nat>): seq<nat> {
    seq(|ks|, i requires 0 <= i < |ks| => if ks[i] < |cs| then cs[ks[i]].index else 0)
  }

  function Range(a: nat, b: nat): seq<nat>
    requires a <= b
  {
    seq(b - a, i requires 0 <= i < b - a => a + i)
  }

  ghost predicate Ascending(ks: seq<nat>) { forall i, j :: 0 <= i < j < |ks| ==> ks[i] < ks[j] }

  lemma OneMore(t: seq<nat>, k: nat, more: bool)
    requires Ascending(t) && forall x: nat :: x in t ==> x < k
    ensures var t' := t + if more then [k] else [];
            Ascending(t') && forall x: nat :: x in t' <==> x in t || (more && x == k)
  {
    assert forall i :: 0 <= i < |t| ==> t[i] in t;
  }

  lemma {:induction false} SelectMeans(cs: seq<CommentInfo>, side: Side, token: nat, n: nat)
    ensures Ascending(Select(cs, side, token, n))
    ensures forall k: nat :: k in Select(cs, side, token, n) <==> k < n && Belongs(cs, side, token, k)
    decreases n
  {
    if n > 0 {
      SelectMeans(cs, side, token, n - 1);
      var t := Select(cs, side, token, n - 1);
      OneMore(t, n - 1, Belongs(cs, side, token, n - 1));
    }
  }

  // The greatest member of an ascending list is its last.
  lemma AscendingEnds(xs: seq<nat>, m: nat)
    requires Ascending(xs) && m in xs && forall i :: 0 <= i < |xs| ==> xs[i] <= m
    ensures |xs| > 0 && xs[|xs| - 1] == m
    ensures forall x: nat :: x in xs && x < m ==> x in xs[..|xs| - 1]
  {
    var n := |xs| - 1;
    var i :| 0 <= i < |xs| && xs[i] == m;
    assert xs == xs[..n] + [m];
  }

  // An ascending list is determined by its members.
  lemma {:induction false} AscendingIsRange(xs: seq<nat>, a: nat, b: nat)
    requires a <= b && Ascending(xs) && forall i :: 0 <= i < |xs| ==> a <= xs[i] < b
    requires forall x: nat :: a <= x < b ==> x in xs
    ensures xs == Range(a, b)
    decreases b - a
  {
    if a < b {
      AscendingEnds(xs, b - 1);
      var ys := xs[..|xs| - 1];
      forall x: nat | a <= x < b - 1
        ensures x in ys
      {
        assert x in xs;
      }
      AscendingIsRange(ys, a, b - 1);
      assert xs == ys + [b - 1] && Range(a, b) == Range(a, b - 1) + [b - 1];
    }
  }

  // The table attributes comment `k` to `s` or, as a trailing one, to the token before it.
  ghost predicate Between(cs: seq<CommentInfo>, prev: Option<nat>, s: nat, k: int) {
    Belongs(cs, Leading, s, k) || (prev.Some? && Belongs(cs, Trailing, prev.value, k))
  }

  ghost predicate Adjoining(data: seq<byte>, items: seq<ItemSpan>, prev: Option<nat>, s: nat) {
    if prev.Some? then LexerBook.Neighbours(data, items, prev.value, s) else FirstToken(data, items, s)
  }

  // Exactly the comments between the tokens belong to one of them.
  lemma BelongsIffBetween(data: seq<byte>, items: seq<ItemSpan>, cs: seq<CommentInfo>, prev: Option<nat>, s: nat,
      k: nat)
    requires LexerBook.Partitioned(data, items, cs) && Adjoining(data, items, prev, s) && k < |cs|
    ensures Between(cs, prev, s, k) <==> LexerBook.Base(prev) <= cs[k].index < s
    ensures prev.Some? && Belongs(cs, Trailing, prev.value, k) ==> cs[k].index == prev.value + 1
  {
    assert LexerBook.AttachedAt(data, items, cs, |items|, k);
    var c := cs[k];
    assert LexerBook.CommentAt(data, items, c.index);
    assert c.index < c.attributedTo ==>
      forall m: nat :: c.index < m < c.attributedTo ==> LexerBook.CommentAt(data, items, m);
    if LexerBook.Base(prev) <= c.index < s {
      if c.index < c.attributedTo {
        assert c.attributedTo > s ==> LexerBook.CommentAt(data, items, s);
        assert c.attributedTo < s ==> LexerBook.CommentAt(data, items, c.attributedTo);
      } else {
        assert prev.Some? ==> prev.value < c.attributedTo ==> LexerBook.CommentAt(data, items, c.attributedTo);
        assert prev.None? ==> LexerBook.CommentAt(data, items, c.attributedTo);
      }
    }
  }

  // The positions that RolesAt distributes.
  function Distributed(cs: seq<CommentInfo>, prev: Option<nat>, s: nat): seq<nat> {
    (if prev.Some? then Select(cs, Trailing, prev.value, |cs|) else []) + Select(cs, Leading, s, |cs|)
  }

  // Trailing comments of the previous token come before the leading ones of the next.
  lemma TrailingFirst(cs: seq<CommentInfo>, p: nat, s: nat, i: nat, j: nat)
    requires CommentsOk(cs) && Belongs(cs, Trailing, p, i) && Belongs(cs, Leading, s, j) && p < s
    ensures i < j
  {
    assert j < i ==> CommentAfter(cs, j, i);
  }

  // Positions below `n` in the table, ascending, of comments from item `a` to item `b`.
  ghost predicate Positions(cs: seq<CommentInfo>, ks: seq<nat>, a: nat, b: nat) {
    Ascending(ks) && forall i :: 0 <= i < |ks| ==> ks[i] < |cs| && a <= cs[ks[i]].index < b
  }

  lemma DistributedMembers(cs: seq<CommentInfo>, prev: Option<nat>, s: nat, k: nat)
    ensures k in Distributed(cs, prev, s) <==> k < |cs| && Between(cs, prev, s, k)
  {
    SelectMeans(cs, Leading, s, |cs|);
    if prev.Some? {
      SelectMeans(cs, Trailing, prev.value, |cs|);
    }
  }

  lemma DistributedAscends(cs: seq<CommentInfo>, prev: Option<nat>, s: nat)
    requires CommentsOk(cs) && (prev.Some? ==> prev.value < s)
    ensures Ascending(Distributed(cs, prev, s))
  {
    SelectMeans(cs, Leading, s, |cs|);
    if prev.Some? {
      var t, l := Select(cs, Trailing, prev.value, |cs|), Select(cs, Leading, s, |cs|);
      SelectMeans(cs, Trailing, prev.value, |cs|);
      forall i, j | 0 <= i < |t| && 0 <= j < |l|
        ensures t[i] < l[j]
      {
        assert t[i] in t && l[j] in l;
        TrailingFirst(cs, prev.value, s, t[i], l[j]);
      }
    }
  }

  lemma DistributedMeans(data: seq<byte>, items: seq<ItemSpan>, cs: seq<CommentInfo>, prev: Option<nat>, s: nat)
    requires LexerBook.Partitioned(data, items, cs) && Adjoining(data, items, prev, s) && CommentsOk(cs)
    ensures Positions(cs, Distributed(cs, prev, s), LexerBook.Base(prev), s)
    ensures forall k: nat :: k < |cs| && LexerBook.Base(prev) <= cs[k].index < s ==> k in Distributed(cs, prev, s)
  {
    var ks := Distributed(cs, prev, s);
    DistributedAscends(cs, prev, s);
    forall i | 0 <= i < |ks|
      ensures ks[i] < |cs| && LexerBook.Base(prev) <= cs[ks[i]].index < s
    {
      assert ks[i] in ks;
      DistributedMembers(cs, prev, s, ks[i]);
      BelongsIffBetween(data, items, cs, prev, s, ks[i]);
    }
    forall k: nat | k < |cs| && LexerBook.Base(prev) <= cs[k].index < s
      ensures k in ks
    {
      DistributedMembers(cs, prev, s, k);
      BelongsIffBetween(data, items, cs, prev, s, k);
    }
  }

  lemma ItemsAscend(cs: seq<CommentInfo>, ks: seq<nat>, a: nat, b: nat)
    requires CommentsOk(cs) && Positions(cs, ks, a, b)
    ensures Ascending(ItemsOf(cs, ks))
  {
    forall i, j | 0 <= i < j < |ks|
      ensures ItemsOf(cs, ks)[i] < ItemsOf(cs, ks)[j]
    {
      assert CommentAfter(cs, ks[i], ks[j]);
    }
  }

  /** The comments between two neighbouring tokens, or before the first token, are exactly the
      trailing comments of the first, then the detached and then the leading ones of the
      second, each once and in the order of the file, and no group is empty. */
  lemma RolesAreConserved(data: seq<byte>, items: seq<ItemSpan>, cs: seq<CommentInfo>, y: Layout, prev: Option<nat>,
      s: nat)
    requires LexerBook.Partitioned(data, items, cs) && Adjoining(data, items, prev, s) && CommentsOk(cs)
    ensures var r := RolesAt(y, cs, prev, s);
            && LexerBook.Base(prev) <= s
            && ItemsOf(cs, r.trail + Flat(r.detached) + r.lead) == Range(LexerBook.Base(prev), s)
            && NoneEmpty(r.detached)
  {
    var ks := Distributed(cs, prev, s);
    var xs, a := ItemsOf(cs, ks), LexerBook.Base(prev);
    DistributedMeans(data, items, cs, prev, s);
    forall x: nat | a <= x < s
      ensures x in xs
    {
      assert LexerBook.CommentAt(data, items, x);
      assert LexerBook.Recorded(cs, x);
      var k: nat :| LexerBook.RecordedAt(cs, x, k);
      assert k in ks;
      var i :| 0 <= i < |ks| && ks[i] == k;
      assert xs[i] == x;
    }
    ItemsAscend(cs, ks, a, s);
    AscendingIsRange(xs, a, s);
  }

  /** The two queries agree: the trailing comments of a node that ends with `e`, followed by the
      detached and leading comments of the node that starts with the next token, are exactly the
      comments between the two, each once. */
  method QueriesPartition(info: FileInfo, y: Layout, e: nat)
    returns (trail: seq<nat>, detached: seq<seq<nat>>, lead: seq<nat>, next: Option<nat>)
    requires info.Valid() && e < |info.items| && !info.IsComment(e)
    requires LexerBook.Partitioned(info.data, info.items, info.comments)
    ensures next.None? ==> trail == [] && forall s: nat :: !LexerBook.Neighbours(info.data, info.items, e, s)
    ensures next.Some? ==>
              && LexerBook.Neighbours(info.data, info.items, e, next.value)
              && ItemsOf(info.comments, trail + Flat(detached) + lead) == Range(e + 1, next.value)
  {
    detached, lead := [], [];
    trail, next := GetTrailingComments(info, y, e);
    if next.Some? {
      SameComments(info);
      var prev;
      detached, lead, prev := GetLeadingComments(info, y, next.value);
      if prev.Some? {
        NeighboursAreUnique(info.data, info.items, e, prev.value, next.value);
      }
      assert prev == Some(e);
      RolesAreConserved(info.data, info.items, info.comments, y, prev, next.value);
    }
  }
}
