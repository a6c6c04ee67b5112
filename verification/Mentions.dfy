/** Matrix text to OneBot segments: cutting out the mentions (`constructMentionSegments`). */
module Mentions {
  import opened Strings
  import opened Tiling
  import opened Onebot

  // ----- leftmost-longest, on a set of keywords -----

  /** Keyword `k` starts at `i` and no longer keyword does. */
  ghost predicate LongestAt(kws: set<string>, text: string, i: nat, k: string) {
    k in kws && Fits(text, i, k) && forall l | l in kws && Fits(text, i, l) :: |l| <= |k|
  }

  ghost predicate NoneAt(kws: set<string>, text: string, i: nat) {
    forall k | k in kws :: !Fits(text, i, k)
  }

  ghost function Longest(kws: set<string>, text: string, i: nat): Option<string> {
    if exists k :: LongestAt(kws, text, i, k) then
      var k :| LongestAt(kws, text, i, k);
      Some(k)
    else None
  }

  lemma LongestExists(kws: set<string>, text: string, i: nat)
    requires !NoneAt(kws, text, i)
    ensures exists k :: LongestAt(kws, text, i, k)
  {
    var k :| k in kws && Fits(text, i, k);
    var rest := kws - {k};
    if NoneAt(rest, text, i) {
      assert LongestAt(kws, text, i, k);
    } else {
      LongestExists(rest, text, i);
      var l :| LongestAt(rest, text, i, l);
      assert LongestAt(kws, text, i, if |l| < |k| then k else l);
    }
  }

  lemma LongestMeans(kws: set<string>, text: string, i: nat, r: Option<string>)
    ensures Longest(kws, text, i) == r <==> match r case None => NoneAt(kws, text, i) case Some(k) => LongestAt(kws, text, i, k)
  {
    if !NoneAt(kws, text, i) {
      LongestExists(kws, text, i);
    }
  }

  ghost function Matching(kws: set<string>, text: string): Matcher {
    (i: nat) => Longest(kws, text, i)
  }

  /** Keywords are "@" followed by a name. */
  predicate AllKeywords(kws: set<string>) {
    forall k | k in kws :: |k| > 0 && k[0] == '@'
  }

  function Keywords(mentions: set<string>): (kws: set<string>)
    ensures AllKeywords(kws)
  {
    set m | m in mentions :: "@" + m
  }

  lemma MatchingHonest(kws: set<string>, text: string)
    requires AllKeywords(kws)
    ensures Honest(Matching(kws, text), text)
  {
    forall i: nat | Longest(kws, text, i).Some?
      ensures Longest(kws, text, i).value != "" && Fits(text, i, Longest(kws, text, i).value)
    {
      LongestMeans(kws, text, i, Longest(kws, text, i));
    }
  }

  /** The pieces of `text`: a function of the set of mentions alone. */
  ghost function Pieces(text: string, mentions: set<string>): seq<Piece> {
    MatchingHonest(Keywords(mentions), text);
    Scan(Matching(Keywords(mentions), text), text, 0, 0)
  }

  /** Piece `p` stands at `i` as maximal munch demands. */
  ghost predicate Munched(kws: set<string>, text: string, i: nat, p: Piece) {
    match p
    case Hit(k) => LongestAt(kws, text, i, k)
    case Plain(s) => s != "" && forall q: nat | i <= q < i + |s| :: NoneAt(kws, text, q)
  }

  /** Nothing lost; at each hit no longer keyword matches; no keyword starts anywhere inside a plain
      piece, not even one running on into the next hit; plain pieces are non-empty, never adjacent. */
  ghost predicate MaximalMunch(kws: set<string>, text: string, ps: seq<Piece>) {
    && Join(ps) == text
    && (forall j | 0 <= j < |ps| :: Munched(kws, text, Offset(ps, j), ps[j]))
    && (forall j: nat | j + 1 < |ps| :: Parted(ps, j))
  }

  lemma MunchedIsRight(kws: set<string>, text: string, i: nat, p: Piece)
    ensures Munched(kws, text, i, p) <==> Right(Matching(kws, text), i, p)
  {
    match p {
      case Hit(k) => LongestMeans(kws, text, i, Some(k));
      case Plain(s) =>
        forall q: nat | i <= q < i + |s| ensures NoneAt(kws, text, q) <==> Matching(kws, text)(q) == None {
          LongestMeans(kws, text, q, None);
        }
    }
  }

  /** Every text has exactly one maximal munch, and it is what `Pieces` gives. */
  lemma MaximalMunchExact(text: string, mentions: set<string>, ps: seq<Piece>)
    ensures MaximalMunch(Keywords(mentions), text, ps) <==> ps == Pieces(text, mentions)
  {
    var kws := Keywords(mentions);
    var m := Matching(kws, text);
    MatchingHonest(kws, text);
    TilesExact(m, text, ps);
    assert text[0..] == text;
    forall j: nat | j < |ps|
      ensures Munched(kws, text, Offset(ps, j), ps[j]) <==> RightAt(m, 0, ps, j)
    {
      MunchedIsRight(kws, text, Offset(ps, j), ps[j]);
    }
    assert MaximalMunch(kws, text, ps) <==> Tiles(m, text, 0, ps);
  }

  // ----- leftmost-first, on a list of alternatives -----

  /** The first alternative, in list order, that starts at `i`. */
  function FirstAlternative(alts: seq<string>, text: string, i: nat): Option<string> {
    if alts == [] then None
    else if Fits(text, i, alts[0]) then Some(alts[0])
    else FirstAlternative(alts[1..], text, i)
  }

  predicate LengthDescending(alts: seq<string>) {
    forall a, b | 0 <= a < b < |alts| :: |alts[a]| >= |alts[b]|
  }

  lemma {:induction false} FirstAlternativeMeans(alts: seq<string>, text: string, i: nat)
    requires LengthDescending(alts)
    ensures match FirstAlternative(alts, text, i)
      case None => forall k | k in alts :: !Fits(text, i, k)
      case Some(k) => k in alts && Fits(text, i, k) && forall l | l in alts && Fits(text, i, l) :: |l| <= |k|
  {
    if alts != [] {
      FirstAlternativeMeans(alts[1..], text, i);
      assert forall k | k in alts :: k == alts[0] || k in alts[1..];
    }
  }

  /** Trying longer alternatives first turns leftmost-first into leftmost-longest, whatever the order
      among alternatives of equal length. */
  lemma FirstIsLongest(alts: seq<string>, kws: set<string>, text: string, i: nat)
    requires LengthDescending(alts) && kws == set k | k in alts
    ensures FirstAlternative(alts, text, i) == Longest(kws, text, i)
  {
    FirstAlternativeMeans(alts, text, i);
    LongestMeans(kws, text, i, FirstAlternative(alts, text, i));
  }

  // ----- the regular expression library -----

  /** `FindAllStringIndex`: leftmost-first, non-overlapping matches from `i` on. */
  function FindAllIndex(alts: seq<string>, text: string, i: nat): (spans: seq<(nat, nat)>)
    requires forall k | k in alts :: k != ""
    decreases |text| - i
  {
    if i >= |text| then [] else
    match FirstAlternative(alts, text, i)
    case None => FindAllIndex(alts, text, i + 1)
    case Some(k) =>
      FirstAlternativeFits(alts, text, i);
      [(i, i + |k|)] + FindAllIndex(alts, text, i + |k|)
  }

  lemma FirstAlternativeFits(alts: seq<string>, text: string, i: nat)
    ensures FirstAlternative(alts, text, i).Some? ==>
      var k := FirstAlternative(alts, text, i).value; k in alts && Fits(text, i, k)
  {
  }

  /** Matches in order, inside `text[beg..]`, not overlapping. */
  predicate Spans(text: string, spans: seq<(nat, nat)>, beg: nat)
    decreases |spans|
  {
    if spans == [] then beg <= |text|
    else beg <= spans[0].0 < spans[0].1 <= |text| && Spans(text, spans[1..], spans[0].1)
  }

  /** `Split`: the text between the matches. */
  function SplitAround(text: string, spans: seq<(nat, nat)>, beg: nat): (parts: seq<string>)
    requires Spans(text, spans, beg)
    ensures |parts| == |spans| + 1
    decreases |spans|
  {
    if spans == [] then [text[beg..]] else [text[beg..spans[0].0]] + SplitAround(text, spans[1..], spans[0].1)
  }

  /** `FindAllString`: the matched text. */
  function Matched(text: string, spans: seq<(nat, nat)>, beg: nat): (matches: seq<string>)
    requires Spans(text, spans, beg)
    ensures |matches| == |spans|
    decreases |spans|
  {
    if spans == [] then [] else [text[spans[0].0..spans[0].1]] + Matched(text, spans[1..], spans[0].1)
  }

  /** The pieces a list of matches cuts the text into. */
  function Cut(text: string, spans: seq<(nat, nat)>, beg: nat): seq<Piece>
    requires Spans(text, spans, beg)
    decreases |spans|
  {
    if spans == [] then Prepend(text[beg..], [])
    else Prepend(text[beg..spans[0].0], [Hit(text[spans[0].0..spans[0].1])] + Cut(text, spans[1..], spans[0].1))
  }

  lemma CutStep(text: string, beg: nat, i: nat, k: string, rest: seq<(nat, nat)>)
    requires beg <= i && Fits(text, i, k) && k != "" && Spans(text, rest, i + |k|)
    ensures Spans(text, [(i, i + |k|)] + rest, beg)
    ensures Cut(text, [(i, i + |k|)] + rest, beg) == Prepend(text[beg..i], [Hit(k)] + Cut(text, rest, i + |k|))
  {
    assert ([(i, i + |k|)] + rest)[1..] == rest;
  }

  lemma {:induction false} FindAllIsScan(alts: seq<string>, m: Matcher, text: string, beg: nat, i: nat)
    requires (forall k | k in alts :: k != "") && Honest(m, text) && beg <= i <= |text|
    requires forall q: nat :: FirstAlternative(alts, text, q) == m(q)
    ensures Spans(text, FindAllIndex(alts, text, i), beg)
    ensures Cut(text, FindAllIndex(alts, text, i), beg) == Scan(m, text, beg, i)
    decreases |text| - i
  {
    if i < |text| {
      match FirstAlternative(alts, text, i) {
        case None =>
          FindAllIsScan(alts, m, text, beg, i + 1);
        case Some(k) =>
          assert m(i) == Some(k);
          FindAllIsScan(alts, m, text, i + |k|, i + |k|);
          CutStep(text, beg, i, k, FindAllIndex(alts, text, i + |k|));
      }
    } else {
      assert text[beg..i] == text[beg..];
    }
  }

  // ----- the method -----

  function Strs(ps: seq<Piece>): (r: seq<string>)
    ensures |r| == |ps|
    ensures forall j | 0 <= j < |ps| :: r[j] == ps[j].Str()
  {
    if ps == [] then [] else [ps[0].Str()] + Strs(ps[1..])
  }

  /** A hit becomes a mention ("@room" mentions everybody), plain text stays text. */
  function Tag(p: Piece): Segment {
    match p
    case Plain(s) => Text(s)
    case Hit(k) => if k == "@room" then At("all") else At(if k == "" then "" else k[1..])
  }

  function Tagged(ps: seq<Piece>): (r: seq<Segment>)
    ensures |r| == |ps|
    ensures forall j | 0 <= j < |ps| :: r[j] == Tag(ps[j])
  {
    if ps == [] then [] else [Tag(ps[0])] + Tagged(ps[1..])
  }

  /** What the mention tokeniser produces, as a function of the text and the set of mentions. */
  ghost function Segmentation(text: string, mentions: set<string>): seq<Segment> {
    if mentions == {} then [Text(text)] else Tagged(Pieces(text, mentions))
  }

  /** What the segments say, piece by piece: plain text stays text, "@room" becomes a mention of everybody,
      and a hit on "@" and any other name becomes a mention of that name. Nobody is ever called "room", and
      everybody is mentioned exactly where the text has "@room" or a user called "all". */
  ghost predicate Sends(segments: seq<Segment>, ps: seq<Piece>) {
    && |segments| == |ps|
    && (forall j | 0 <= j < |ps| && ps[j].Plain? :: segments[j] == Text(ps[j].s))
    && (forall j | 0 <= j < |ps| && ps[j] == Hit("@room") :: segments[j] == At("all"))
    && (forall j | 0 <= j < |ps| && ps[j].Hit? && ps[j].k != "@room" :: segments[j].At? && ps[j].k == "@" + segments[j].target)
    && (forall j | 0 <= j < |segments| :: segments[j] != At("room"))
    && (At("all") in segments <==> Hit("@room") in ps || Hit("@all") in ps)
  }

  /** A split piece equals some keyword exactly when it came from a match, so telling pieces apart by
      their content is sound. */
  lemma ReclassificationSound(text: string, mentions: set<string>, j: nat)
    requires j < |Pieces(text, mentions)|
    ensures Pieces(text, mentions)[j].Str() in Keywords(mentions) <==> Pieces(text, mentions)[j].Hit?
  {
    var ps := Pieces(text, mentions);
    var kws := Keywords(mentions);
    MaximalMunchExact(text, mentions, ps);
    assert Munched(kws, text, Offset(ps, j), ps[j]);
    if ps[j].Plain? {
      JoinAt(ps, j);
      assert NoneAt(kws, text, Offset(ps, j));
      assert Fits(text, Offset(ps, j), ps[j].s);
    }
  }

  lemma FitsBehind(a: string, b: string, i: nat, s: string)
    requires Fits(b, i, s)
    ensures Fits(a + b, |a| + i, s)
  {
    assert (a + b)[|a| + i..|a| + i + |s|] == b[i..i + |s|];
  }

  lemma HitsStartWithAt(text: string, mentions: set<string>, j: nat)
    requires j < |Pieces(text, mentions)| && Pieces(text, mentions)[j].Hit?
    ensures var k := Pieces(text, mentions)[j].k; |k| > 0 && k == "@" + k[1..]
  {
    var ps := Pieces(text, mentions);
    MaximalMunchExact(text, mentions, ps);
    assert Munched(Keywords(mentions), text, Offset(ps, j), ps[j]);
    var m :| m in mentions && ps[j].k == "@" + m;
  }

  /** With mentions, the produced segments send exactly what the pieces of the text call for. */
  lemma SegmentationSends(text: string, mentions: set<string>)
    requires mentions != {}
    ensures Sends(Segmentation(text, mentions), Pieces(text, mentions))
  {
    var ps, segments := Pieces(text, mentions), Segmentation(text, mentions);
    assert "@room"[1..] == "room" && "@all"[1..] == "all" && "@room" == "@" + "room" && "@all" == "@" + "all";
    forall j | 0 <= j < |ps| && ps[j].Hit?
      ensures segments[j].At? && (ps[j].k == "@room" ==> segments[j].target == "all")
      ensures ps[j].k != "@room" ==> ps[j].k == "@" + segments[j].target && segments[j].target != "room"
    {
      HitsStartWithAt(text, mentions, j);
    }
    EverybodyOnce(segments, ps);
  }

  lemma EverybodyOnce(segments: seq<Segment>, ps: seq<Piece>)
    requires |segments| == |ps| && forall j | 0 <= j < |ps| && ps[j].Plain? :: segments[j].Text?
    requires forall j | 0 <= j < |ps| && ps[j] == Hit("@room") :: segments[j] == At("all")
    requires forall j | 0 <= j < |ps| && ps[j].Hit? && ps[j].k != "@room" :: segments[j].At? && ps[j].k == "@" + segments[j].target
    ensures At("all") in segments <==> Hit("@room") in ps || Hit("@all") in ps
  {
    assert "@" + "all" == "@all";
    if At("all") in segments {
      var j :| 0 <= j < |segments| && segments[j] == At("all");
      assert ps[j] in ps && (ps[j] == Hit("@room") || ps[j] == Hit("@all"));
    }
    if Hit("@room") in ps {
      var j :| 0 <= j < |ps| && ps[j] == Hit("@room");
      assert segments[j] in segments;
    }
    if Hit("@all") in ps {
      var j :| 0 <= j < |ps| && ps[j] == Hit("@all");
      SameName(segments[j].target, "all");
      assert segments[j] in segments;
    }
  }

  lemma SameName(a: string, b: string)
    requires "@" + a == "@" + b
    ensures a == b
  {
    assert a == ("@" + a)[1..] && b == ("@" + b)[1..];
  }

  lemma {:induction false} JoinAt(ps: seq<Piece>, j: nat)
    requires j < |ps|
    ensures Fits(Join(ps), Offset(ps, j), ps[j].Str())
  {
    if j > 0 {
      JoinAt(ps[1..], j - 1);
      FitsBehind(ps[0].Str(), Join(ps[1..]), Offset(ps[1..], j - 1), ps[j].Str());
    }
  }

  method LongestFrom(a: array<string>, n: nat) returns (best: nat)
    requires n < a.Length
    ensures n <= best < a.Length && forall i | n <= i < a.Length :: |a[best]| >= |a[i]|
  {
    best := n;
    for j := n + 1 to a.Length
      invariant n <= best < a.Length && forall i | n <= i < j :: |a[best]| >= |a[i]|
    {
      if |a[j]| > |a[best]| {
        best := j;
      }
    }
  }

  /** `slices.SortFunc` by descending length: it promises nothing about the order of equal lengths,
      and neither does this contract. */
  method SortByLength(a: array<string>)
    modifies a
    ensures LengthDescending(a[..])
    ensures multiset(a[..]) == multiset(old(a[..]))
  {
    for n := 0 to a.Length
      invariant forall i, j | 0 <= i < n && i < j < a.Length :: |a[i]| >= |a[j]|
      invariant multiset(a[..]) == multiset(old(a[..]))
    {
      var best := LongestFrom(a, n);
      a[n], a[best] := a[best], a[n];
    }
  }

  /** How the second loop tells the pieces apart: by content. */
  function Classify(keywords: seq<string>, s: string): Segment {
    if s in keywords then
      if s == "@room" then At("all") else At(if s == "" then "" else s[1..])
    else Text(s)
  }

  lemma ClassifyIsTag(keywords: seq<string>, text: string, mentions: set<string>, ps: seq<Piece>, segments: seq<Segment>)
    requires ps == Pieces(text, mentions) && (set k | k in keywords) == Keywords(mentions)
    requires |segments| == |ps| && forall j | 0 <= j < |ps| :: segments[j] == Classify(keywords, ps[j].Str())
    ensures segments == Tagged(ps)
  {
    forall j | 0 <= j < |ps| ensures segments[j] == Tag(ps[j]) {
      ReclassificationSound(text, mentions, j);
      assert ps[j].Str() in keywords <==> ps[j].Str() in Keywords(mentions);
    }
  }

  /** The pieces of the code's own scan are the maximal munch. */
  lemma ScanIsMunch(alts: seq<string>, text: string, mentions: set<string>)
    requires LengthDescending(alts) && (set k | k in alts) == Keywords(mentions)
    ensures forall k | k in alts :: k != ""
    ensures Spans(text, FindAllIndex(alts, text, 0), 0)
    ensures Cut(text, FindAllIndex(alts, text, 0), 0) == Pieces(text, mentions)
  {
    var kws := Keywords(mentions);
    assert forall k | k in alts :: k in kws;
    MatchingHonest(kws, text);
    forall q: nat ensures FirstAlternative(alts, text, q) == Matching(kws, text)(q) {
      FirstIsLongest(alts, kws, text, q);
    }
    FindAllIsScan(alts, Matching(kws, text), text, 0, 0);
  }

  /** What one round of the interleaving loop appends. */
  function Round(part: string, next: Option<string>): seq<string> {
    match next
    case None => if part == "" then [] else [part]
    case Some(m) => if part == "" then [m] else [part, m]
  }

  function RoundAt(parts: seq<string>, matches: seq<string>, i: nat): seq<string>
    requires i < |parts|
  {
    Round(parts[i], if i < |matches| then Some(matches[i]) else None)
  }

  /** What the interleaving loop has appended after `n` rounds. */
  function Woven(parts: seq<string>, matches: seq<string>, n: nat): seq<string>
    requires n <= |parts|
  {
    if n == 0 then [] else Woven(parts, matches, n - 1) + RoundAt(parts, matches, n - 1)
  }

  lemma {:induction false} WovenCons(p: string, m: string, parts: seq<string>, matches: seq<string>, n: nat)
    requires n <= |parts|
    ensures Woven([p] + parts, [m] + matches, n + 1) == Round(p, Some(m)) + Woven(parts, matches, n)
  {
    var ps, ms, head := [p] + parts, [m] + matches, Round(p, Some(m));
    if n == 0 {
      assert RoundAt(ps, ms, 0) == head && Woven(ps, ms, 0) == [] && Woven(parts, matches, 0) == [];
      EmptySides(head);
    } else {
      var last := RoundAt(parts, matches, n - 1);
      assert RoundAt(ps, ms, n) == last;
      WovenCons(p, m, parts, matches, n - 1);
      Regroup(head, Woven(parts, matches, n - 1), last);
    }
  }

  lemma EmptySides(s: seq<string>)
    ensures [] + s == s == s + []
  {
  }

  lemma StrsCons(p: Piece, ps: seq<Piece>)
    ensures Strs([p] + ps) == [p.Str()] + Strs(ps)
  {
    assert ([p] + ps)[1..] == ps;
  }

  lemma StrsHead(part: string, hit: string, rest: seq<Piece>)
    ensures Strs(Prepend(part, [Hit(hit)] + rest)) == Round(part, Some(hit)) + Strs(rest)
  {
    StrsCons(Hit(hit), rest);
    StrsCons(Plain(part), [Hit(hit)] + rest);
  }

  lemma {:induction false} WovenIsCut(text: string, spans: seq<(nat, nat)>, beg: nat)
    requires Spans(text, spans, beg)
    ensures Woven(SplitAround(text, spans, beg), Matched(text, spans, beg), |spans| + 1) == Strs(Cut(text, spans, beg))
    decreases |spans|
  {
    if spans == [] {
      StrsCons(Plain(text[beg..]), []);
      assert Woven([text[beg..]], [], 0) == [];
      EmptySides(Round(text[beg..], None));
    } else {
      var part, hit := text[beg..spans[0].0], text[spans[0].0..spans[0].1];
      var rest, end := spans[1..], spans[0].1;
      WovenIsCut(text, rest, end);
      WovenCons(part, hit, SplitAround(text, rest, end), Matched(text, rest, end), |rest| + 1);
      StrsHead(part, hit, Cut(text, rest, end));
    }
  }

  /** Interleaves the parts between the matches with the matches, leaving out empty parts. */
  method Interleave(text: string, spans: seq<(nat, nat)>) returns (splits: seq<string>)
    requires Spans(text, spans, 0)
    ensures splits == Strs(Cut(text, spans, 0))
  {
    var parts, matches := SplitAround(text, spans, 0), Matched(text, spans, 0);
    splits := [];
    for i := 0 to |parts|
      invariant splits == Woven(parts, matches, i)
    {
      ghost var before := splits;
      if parts[i] != "" {
        splits := splits + [parts[i]];
      }
      if i < |matches| {
        splits := splits + [matches[i]];
      }
      assert splits == before + RoundAt(parts, matches, i);
    }
    WovenIsCut(text, spans, 0);
  }

  lemma KeywordSet(keywords: seq<string>, mentions: seq<string>)
    requires |keywords| == |mentions| && forall j | 0 <= j < |mentions| :: keywords[j] == "@" + mentions[j]
    ensures (set k | k in keywords) == Keywords(set m | m in mentions)
  {
    var names := set m | m in mentions;
    forall k | k in keywords ensures k in Keywords(names) {
      var j :| 0 <= j < |keywords| && keywords[j] == k;
      assert mentions[j] in names;
    }
    forall k | k in Keywords(names) ensures k in keywords {
      var m :| m in names && k == "@" + m;
      var j :| 0 <= j < |mentions| && mentions[j] == m;
      assert keywords[j] == k;
    }
  }

  lemma SameElements(a: seq<string>, b: seq<string>)
    requires multiset(a) == multiset(b)
    ensures (set k | k in a) == set k | k in b
  {
    forall k ensures k in a <==> k in b {
      assert k in a <==> k in multiset(a);
      assert k in b <==> k in multiset(b);
    }
  }

  /** The keywords of the mentions, longest first, with no promise about equal lengths. */
  method SortedKeywords(mentions: seq<string>) returns (keywords: array<string>)
    ensures fresh(keywords) && LengthDescending(keywords[..])
    ensures (set k | k in keywords[..]) == Keywords(set m | m in mentions)
  {
    keywords := new string[|mentions|](_ => "");
    for i := 0 to |mentions|
      invariant forall j | 0 <= j < i :: keywords[j] == "@" + mentions[j]
    {
      keywords[i] := "@" + mentions[i];
    }
    KeywordSet(keywords[..], mentions);
    ghost var before := keywords[..];
    SortByLength(keywords);
    SameElements(before, keywords[..]);
  }

  /** Turns the split strings into segments, looking each up among the keywords. */
  method ToSegments(keywords: seq<string>, splits: seq<string>) returns (segments: seq<Segment>)
    ensures |segments| == |splits|
    ensures forall j | 0 <= j < |splits| :: segments[j] == Classify(keywords, splits[j])
  {
    segments := [];
    for i := 0 to |splits|
      invariant |segments| == i && forall j | 0 <= j < i :: segments[j] == Classify(keywords, splits[j])
    {
      segments := segments + [Classify(keywords, splits[i])];
    }
  }

  /** `constructMentionSegments`: the result depends on the text and on which mentions there are, not on
      their order, their repetition, or what the sort does with keywords of equal length. */
  method ConstructMentionSegments(text: string, mentions: seq<string>) returns (segments: seq<Segment>)
    ensures segments == Segmentation(text, set m | m in mentions)
    ensures if mentions == [] then segments == [Text(text)] else Sends(segments, Pieces(text, set m | m in mentions))
  {
    if |mentions| == 0 {
      return [Text(text)];
    }
    ghost var names := set m | m in mentions;
    assert mentions[0] in names;
    var keywords := SortedKeywords(mentions);
    var alts := keywords[..];
    ScanIsMunch(alts, text, names);
    var splits := Interleave(text, FindAllIndex(alts, text, 0));
    segments := ToSegments(alts, splits);
    ClassifyIsTag(alts, text, names, Pieces(text, names), segments);
    SegmentationSends(text, names);
  }

  /** `constructTextMessage`: a room mention counts as a mention of "room". */
  method ConstructTextMessage(text: string, mentions: seq<string>, room: bool) returns (segments: seq<Segment>)
    ensures segments == Segmentation(text, (set m | m in mentions) + if room then {"room"} else {})
    ensures if mentions == [] && !room then segments == [Text(text)]
      else Sends(segments, Pieces(text, (set m | m in mentions) + if room then {"room"} else {}))
  {
    var all := mentions;
    if room {
      all := all + ["room"];
    }
    segments := ConstructMentionSegments(text, all);
    assert (set m | m in all) == (set m | m in mentions) + if room then {"room"} else {};
  }
}
