/** Which comments trail, which are detached and which lead, said by lines. The laws are about the
    comments between two tokens, grouped in the only way in which comments can be grouped. */
module CommentLaws {
  import opened Common
  import opened FileInfo
  import opened CommentRoles

  // --- There is only one grouping -------------------------------------------------------------

  lemma FlatLast(gs: seq<seq<nat>>, k: nat)
    requires gs != [] && k == |gs| - 1
    ensures Flat(gs) == Flat(gs[..k]) + gs[k]
  {
  }

  // The last comment stands alone in the last group.
  lemma DropGroup(y: Layout, gs: seq<seq<nat>>, k: nat)
    requires WellGrouped(y, gs) && gs != [] && k == |gs| - 1
    ensures WellGrouped(y, gs[..k])
  {
    forall i: nat | i + 1 < |gs[..k]|
      ensures BrokenAfter(y, gs[..k], i)
    {
      assert BrokenAfter(y, gs, i);
    }
  }

  // The last comment continues the last group.
  lemma DropComment(y: Layout, gs: seq<seq<nat>>, k: nat, g: seq<nat>)
    requires WellGrouped(y, gs) && gs != [] && k == |gs| - 1 && |gs[k]| > 1 && g == gs[k][..|gs[k]| - 1]
    ensures WellGrouped(y, gs[..k] + [g])
  {
    var gs' := gs[..k] + [g];
    forall i: nat | i + 1 < |gs'|
      ensures BrokenAfter(y, gs', i)
    {
      assert BrokenAfter(y, gs, i);
    }
    forall i: nat | i < |gs'|
      ensures Unbroken(y, gs'[i])
    {
      assert Unbroken(y, gs[i]);
    }
  }

  /** Comments can be cut into longest runs without a break in one way only. */
  lemma {:induction false} GroupingIsUnique(y: Layout, gs: seq<seq<nat>>, cs: seq<nat>)
    requires WellGrouped(y, gs) && Flat(gs) == cs
    ensures gs == Groups(y, cs, |cs|)
    decreases |cs|
  {
    if gs != [] {
      var k, n := |gs| - 1, |cs| - 1;
      var last := gs[k];
      FlatLast(gs, k);
      if |last| == 1 {
        LastStarts(y, gs, cs);
      } else {
        LastContinues(y, gs, cs);
      }
    }
  }

  lemma {:induction false} LastStarts(y: Layout, gs: seq<seq<nat>>, cs: seq<nat>)
    requires WellGrouped(y, gs) && gs != [] && |gs[|gs| - 1]| == 1 && Flat(gs) == cs
    ensures gs == Groups(y, cs, |cs|)
    decreases |cs|, 0
  {
    var k := |gs| - 1;
    DropGroup(y, gs, k);
    DropLast(gs, k, cs);
    GroupingIsUnique(y, gs[..k], cs[..|cs| - 1]);
    LastBreaks(y, gs, k, cs);
    Starts(y, gs, k, cs);
  }

  lemma LastBreaks(y: Layout, gs: seq<seq<nat>>, k: nat, cs: seq<nat>)
    requires WellGrouped(y, gs) && k == |gs| - 1 && |cs| > 0 && cs[..|cs| - 1] == Flat(gs[..k])
        && gs[k] == [cs[|cs| - 1]]
    ensures |cs| > 1 ==> Breaks(y, cs[|cs| - 2], cs[|cs| - 1])
  {
    if k > 0 {
      assert BrokenAfter(y, gs, k - 1);
      EndOfFlat(gs[..k], k - 1);
      assert cs[|cs| - 2] == cs[..|cs| - 1][|cs| - 2];
    }
  }

  lemma DropLast(gs: seq<seq<nat>>, k: nat, cs: seq<nat>)
    requires k == |gs| - 1 && |gs[k]| == 1 && Flat(gs) == cs
    ensures |cs| > 0 && cs[..|cs| - 1] == Flat(gs[..k]) && gs[k] == [cs[|cs| - 1]]
    ensures k == 0 ==> |cs| == 1
  {
    FlatLast(gs, k);
  }

  lemma EndOfFlat(gs: seq<seq<nat>>, k: nat)
    requires k == |gs| - 1 && gs[k] != []
    ensures Flat(gs) != [] && Flat(gs)[|Flat(gs)| - 1] == gs[k][|gs[k]| - 1]
  {
    FlatLast(gs, k);
  }

  lemma Starts(y: Layout, gs: seq<seq<nat>>, k: nat, cs: seq<nat>)
    requires k == |gs| - 1 && |cs| > 0 && gs[k] == [cs[|cs| - 1]] && gs[..k] == Groups(y, cs[..|cs| - 1], |cs| - 1)
    requires |cs| > 1 ==> Breaks(y, cs[|cs| - 2], cs[|cs| - 1])
    ensures gs == Groups(y, cs, |cs|)
  {
    SameGroups(y, cs, |cs| - 1);
    assert gs == gs[..k] + [gs[k]];
  }

  lemma {:induction false} LastContinues(y: Layout, gs: seq<seq<nat>>, cs: seq<nat>)
    requires WellGrouped(y, gs) && gs != [] && |gs[|gs| - 1]| > 1 && Flat(gs) == cs
    ensures gs == Groups(y, cs, |cs|)
    decreases |cs|, 0
  {
    var k, n := |gs| - 1, |cs| - 1;
    var last := gs[k];
    var g := last[..|last| - 1];
    DropComment(y, gs, k, g);
    DropFlat(gs, k, g, cs);
    GroupingIsUnique(y, gs[..k] + [g], cs[..n]);
    LastUnbroken(y, gs, k);
    Continues(y, gs, k, g, cs);
  }

  lemma LastUnbroken(y: Layout, gs: seq<seq<nat>>, k: nat)
    requires WellGrouped(y, gs) && k < |gs| && |gs[k]| > 1
    ensures !Breaks(y, gs[k][|gs[k]| - 2], gs[k][|gs[k]| - 1])
  {
    assert Unbroken(y, gs[k]);
  }

  lemma DropFlat(gs: seq<seq<nat>>, k: nat, g: seq<nat>, cs: seq<nat>)
    requires gs != [] && k == |gs| - 1 && |gs[k]| > 1 && g == gs[k][..|gs[k]| - 1] && Flat(gs) == cs
    ensures |cs| > 1 && cs[..|cs| - 1] == Flat(gs[..k] + [g])
    ensures cs[|cs| - 1] == gs[k][|gs[k]| - 1] && cs[|cs| - 2] == gs[k][|gs[k]| - 2]
  {
    FlatLast(gs, k);
    FlatLast(gs[..k] + [g], k);
    assert (gs[..k] + [g])[..k] == gs[..k];
  }

  lemma Continues(y: Layout, gs: seq<seq<nat>>, k: nat, g: seq<nat>, cs: seq<nat>)
    requires k == |gs| - 1 && |gs[k]| > 1 && g == gs[k][..|gs[k]| - 1] && |cs| > 1
    requires gs[..k] + [g] == Groups(y, cs[..|cs| - 1], |cs| - 1) && cs[|cs| - 1] == gs[k][|gs[k]| - 1]
    requires !Breaks(y, cs[|cs| - 2], cs[|cs| - 1])
    ensures gs == Groups(y, cs, |cs|)
  {
    SameGroups(y, cs, |cs| - 1);
    Rejoined(gs, k, g, cs[|cs| - 1]);
  }

  lemma Rejoined(gs: seq<seq<nat>>, k: nat, g: seq<nat>, c: nat)
    requires k == |gs| - 1 && gs[k] != [] && g == gs[k][..|gs[k]| - 1] && c == gs[k][|gs[k]| - 1]
    ensures Extended(gs[..k] + [g], c, false) == gs
  {
    assert gs[k] == g + [c] && (gs[..k] + [g])[..k] == gs[..k];
  }

  // The groups of the first comments do not depend on the later ones.
  lemma {:induction false} SameGroups(y: Layout, cs: seq<nat>, n: nat)
    requires n <= |cs|
    ensures Groups(y, cs[..n], n) == Groups(y, cs, n)
  {
    SameGroupsTo(y, cs, n, n);
  }

  lemma {:induction false} SameGroupsTo(y: Layout, cs: seq<nat>, m: nat, n: nat)
    requires n <= m <= |cs|
    ensures Groups(y, cs[..m], n) == Groups(y, cs, n)
    decreases n
  {
    if n > 0 {
      SameGroupsTo(y, cs, m, n - 1);
    }
  }

  /** By lines: comments of one group are // comments on adjacent lines, and where a group ends, the
      next comment is not such a comment or not on an adjacent line. */
  lemma GroupsByLines(y: Layout, cs: seq<nat>, i: nat)
    requires i < |Groups(y, cs, |cs|)|
    ensures var gs := Groups(y, cs, |cs|);
            && gs[i] != [] && (forall j: nat :: j + 1 < |gs[i]| ==> Adjoins(y, gs[i][j], gs[i][j + 1]))
            && (i + 1 < |gs| ==> gs[i + 1] != [] && !Adjoins(y, gs[i][|gs[i]| - 1], gs[i + 1][0]))
  {
    var gs := Groups(y, cs, |cs|);
    GroupsAreMaximal(y, cs, |cs|);
    assert Unbroken(y, gs[i]);
    assert i + 1 < |gs| ==> BrokenAfter(y, gs, i);
  }

  // Both are // comments, and no blank line is between them.
  predicate Adjoins(y: Layout, a: nat, b: nat) {
    y.singleLine(a) && y.singleLine(b) && y.first(b) - y.last(a) <= 1
  }

  // --- The laws -------------------------------------------------------------------------------------

  // The group starts on the line of the previous token or on the next one.
  predicate NearPrevious(y: Layout, prev: nat, g: seq<nat>)
    requires g != []
  {
    y.first(g[0]) <= y.end(prev) + 1
  }

  // No blank line is between the group and the token.
  predicate NearNext(y: Layout, g: seq<nat>, tok: nat)
    requires g != []
  {
    y.start(tok) <= y.last(g[|g| - 1]) + 1
  }

  // The group starts on the line of the previous token and ends on that of the next one.
  predicate OneLine(y: Layout, prev: nat, g: seq<nat>, tok: nat)
    requires g != []
  {
    y.first(g[0]) == y.end(prev) && y.last(g[|g| - 1]) == y.start(tok)
  }

  // `gs` are the groups of the comments that belong to the token, and none belongs to the
  // previous one.
  ghost predicate Between(y: Layout, cs: seq<CommentInfo>, prev: nat, tok: nat, gs: seq<seq<nat>>) {
    && WellGrouped(y, gs) && Flat(gs) == Select(cs, Leading, tok, |cs|)
    && Select(cs, Trailing, prev, |cs|) == []
  }

  // What becomes of the groups between two tokens.
  ghost function Split(y: Layout, prev: nat, tok: nat, gs: seq<seq<nat>>): Roles
    requires NoneEmpty(gs)
  {
    var d := MaybeDonate(y, prev, tok, gs);
    var a := MaybeAttach(y, Some(prev), tok, d.trail != [], d.groups);
    Roles(d.trail, a.groups, a.lead)
  }

  lemma BetweenMeans(y: Layout, cs: seq<CommentInfo>, prev: nat, tok: nat, gs: seq<seq<nat>>)
    requires Between(y, cs, prev, tok, gs)
    ensures NoneEmpty(gs) && RolesAt(y, cs, Some(prev), tok) == Split(y, prev, tok, gs)
  {
    GroupingIsUnique(y, gs, Select(cs, Leading, tok, |cs|));
  }

  /** A group that starts more than one line after the previous token does not trail it. */
  lemma FarGroupDoesNotTrail(y: Layout, cs: seq<CommentInfo>, prev: nat, tok: nat, gs: seq<seq<nat>>)
    requires Between(y, cs, prev, tok, gs) && gs != [] && !NearPrevious(y, prev, gs[0])
    ensures RolesAt(y, cs, Some(prev), tok).trail == []
  {
    BetweenMeans(y, cs, prev, tok, gs);
  }

  // Where a lone group goes: to the previous token, to the next one, or to neither.
  datatype Place = ToPrevious | ToNext | ToNeither

  ghost function Lone(g: seq<nat>, p: Place): Roles {
    match p
    case ToPrevious => Roles(g, [], [])
    case ToNext => Roles([], [], g)
    case ToNeither => Roles([], [g], [])
  }

  // In the order in which it is decided.
  ghost function PlaceOf(y: Layout, prev: nat, tok: nat, g: seq<nat>): Place
    requires g != []
  {
    if !NearPrevious(y, prev, g) then if NearNext(y, g, tok) then ToNext else ToNeither
    else if !NearNext(y, g, tok) then ToPrevious
    else if EndsScope(y.text(tok)) then
      if OneLine(y, prev, g, tok) && !y.extraComments && y.text(tok) != "" then ToNeither else ToPrevious
    else if OneLine(y, prev, g, tok) then ToNeither
    else ToNext
  }

  lemma DonateLone(y: Layout, prev: nat, tok: nat, g: seq<nat>)
    requires g != []
    ensures NoneEmpty([g])
    ensures MaybeDonate(y, prev, tok, [g]) == if PlaceOf(y, prev, tok, g) == ToPrevious then Donation(g, [])
        else Donation([], [g])
  {
  }

  lemma AttachLone(y: Layout, prev: nat, tok: nat, g: seq<nat>)
    requires g != [] && PlaceOf(y, prev, tok, g) != ToPrevious
    ensures NoneEmpty([g])
    ensures MaybeAttach(y, Some(prev), tok, false, [g])
         == if PlaceOf(y, prev, tok, g) == ToNext then Attachment([], g) else Attachment([g], [])
  {
    assert [g][..0] == [];
  }

  /** Where a lone group goes. */
  lemma LoneGroup(y: Layout, cs: seq<CommentInfo>, prev: nat, tok: nat, g: seq<nat>)
    requires Between(y, cs, prev, tok, [g]) && g != []
    ensures RolesAt(y, cs, Some(prev), tok) == Lone(g, PlaceOf(y, prev, tok, g))
  {
    BetweenMeans(y, cs, prev, tok, [g]);
    DonateLone(y, prev, tok, g);
    if PlaceOf(y, prev, tok, g) != ToPrevious {
      AttachLone(y, prev, tok, g);
    }
  }

  /** A lone group right before a token that ends no scope leads that token, unless it is on one
      line with both tokens: then it is detached. */
  lemma LoneGroupLeads(y: Layout, cs: seq<CommentInfo>, prev: nat, tok: nat, g: seq<nat>)
    requires Between(y, cs, prev, tok, [g]) && g != [] && NearNext(y, g, tok) && !EndsScope(y.text(tok))
    ensures RolesAt(y, cs, Some(prev), tok)
         == if OneLine(y, prev, g, tok) then Roles([], [g], []) else Roles([], [], g)
  {
    LoneGroup(y, cs, prev, tok, g);
  }

  /** A lone group right after the previous token, with a blank line behind it, trails that token. */
  lemma LoneGroupTrails(y: Layout, cs: seq<CommentInfo>, prev: nat, tok: nat, g: seq<nat>)
    requires Between(y, cs, prev, tok, [g]) && g != [] && NearPrevious(y, prev, g) && !NearNext(y, g, tok)
    ensures RolesAt(y, cs, Some(prev), tok) == Roles(g, [], [])
  {
    LoneGroup(y, cs, prev, tok, g);
  }

  /** Before a token that ends a scope, or the end of the file, a lone group right after the
      previous token trails it. Only a group on one line with both tokens is left detached, unless
      extra comments are asked for or the file ends. */
  lemma ScopeEnds(y: Layout, cs: seq<CommentInfo>, prev: nat, tok: nat, g: seq<nat>)
    requires Between(y, cs, prev, tok, [g]) && g != [] && NearPrevious(y, prev, g) && EndsScope(y.text(tok))
    ensures RolesAt(y, cs, Some(prev), tok)
         == if OneLine(y, prev, g, tok) && !y.extraComments && y.text(tok) != "" then Roles([], [g], [])
            else Roles(g, [], [])
  {
    LoneGroup(y, cs, prev, tok, g);
  }

  // The first of several groups.
  lemma DonateFirst(y: Layout, prev: nat, tok: nat, gs: seq<seq<nat>>)
    requires NoneEmpty(gs) && |gs| > 1
    ensures MaybeDonate(y, prev, tok, gs)
         == if NearPrevious(y, prev, gs[0]) then Donation(gs[0], gs[1..]) else Donation([], gs)
  {
  }

  // The last of the groups that are left, if it may be attached.
  lemma AttachLast(y: Layout, prev: Option<nat>, tok: nat, hasTrail: bool, gs: seq<seq<nat>>)
    requires NoneEmpty(gs) && gs != [] && (hasTrail || prev.None? || |gs| > 1)
    ensures MaybeAttach(y, prev, tok, hasTrail, gs)
         == if NearNext(y, gs[|gs| - 1], tok) then Attachment(gs[..|gs| - 1], gs[|gs| - 1]) else Attachment(gs, [])
  {
  }

  /** Of several groups, the first trails the previous token exactly if it starts right after it,
      and of the others the last leads the next token exactly if no blank line is between. */
  lemma SeveralGroups(y: Layout, cs: seq<CommentInfo>, prev: nat, tok: nat, gs: seq<seq<nat>>)
    requires Between(y, cs, prev, tok, gs) && |gs| > 1
    ensures NoneEmpty(gs)
    ensures var r, near := RolesAt(y, cs, Some(prev), tok), NearPrevious(y, prev, gs[0]);
            && r.trail == (if near then gs[0] else [])
            && Left(y, tok, if near then gs[1..] else gs, r)
  {
    BetweenMeans(y, cs, prev, tok, gs);
    DonateFirst(y, prev, tok, gs);
    var rest := if NearPrevious(y, prev, gs[0]) then gs[1..] else gs;
    AttachLast(y, Some(prev), tok, NearPrevious(y, prev, gs[0]), rest);
  }

  // --- What the tables decide ---------------------------------------------------------------------

  // Of what is left to a token, the last group leads it exactly if no blank line is between.
  ghost predicate Left(y: Layout, tok: nat, gs: seq<seq<nat>>, r: Roles)
    requires NoneEmpty(gs)
  {
    if gs == [] then r.detached == [] && r.lead == []
    else if NearNext(y, gs[|gs| - 1], tok) then r.detached == gs[..|gs| - 1] && r.lead == gs[|gs| - 1]
    else r.detached == gs && r.lead == []
  }

  /** Comments that the tables attribute to the previous token trail it, all of them, and the others
      are left to the next one. */
  lemma TablesTrail(y: Layout, cs: seq<CommentInfo>, prev: nat, tok: nat, gs: seq<seq<nat>>)
    requires WellGrouped(y, gs) && Flat(gs) == Select(cs, Leading, tok, |cs|) && Select(cs, Trailing, prev, |cs|) != []
    ensures var r := RolesAt(y, cs, Some(prev), tok);
            r.trail == Select(cs, Trailing, prev, |cs|) && Left(y, tok, gs, r)
  {
    GroupingIsUnique(y, gs, Select(cs, Leading, tok, |cs|));
    if gs != [] {
      AttachLast(y, Some(prev), tok, true, gs);
    }
  }

  /** Before the first token nothing trails. */
  lemma FirstTokenRoles(y: Layout, cs: seq<CommentInfo>, tok: nat, gs: seq<seq<nat>>)
    requires WellGrouped(y, gs) && Flat(gs) == Select(cs, Leading, tok, |cs|)
    ensures var r := RolesAt(y, cs, None, tok);
            r.trail == [] && Left(y, tok, gs, r)
  {
    GroupingIsUnique(y, gs, Select(cs, Leading, tok, |cs|));
    if gs != [] {
      AttachLast(y, None, tok, false, gs);
    }
  }

  /** Without comments there are no roles. */
  lemma NoComments(y: Layout, cs: seq<CommentInfo>, prev: nat, tok: nat)
    requires Between(y, cs, prev, tok, [])
    ensures RolesAt(y, cs, Some(prev), tok) == Roles([], [], [])
  {
    BetweenMeans(y, cs, prev, tok, []);
  }
}
