/** From Matrix text to OneBot segments and back: cutting out mentions and rendering them again. */
module MentionRoundTrip {
  import opened Strings
  import opened Tiling
  import opened Onebot
  import opened Mentions
  import opened FromOnebot

  lemma BodyCons(env: Env, s: Segment, rest: seq<Segment>)
    ensures Body(env, [s] + rest) == BodyOf(env, s) + Body(env, rest)
  {
    BodyAppend(env, [s], rest);
    BodyAlone(env, s);
  }

  lemma {:induction false} MentionsCons(s: Segment, rest: seq<Segment>)
    ensures MentionsIn([s] + rest) == MentionsIn([s]) + MentionsIn(rest)
    decreases |rest|
  {
    var all, n := [s] + rest, |rest|;
    if n > 0 {
      assert all[..n] == [s] + rest[..n - 1];
      MentionsCons(s, rest[..n - 1]);
    } else {
      assert rest == [] && all == [s];
    }
  }

  /** Hits that mention a user called "all"; rendering turns them into "@room". */
  function AllHits(ps: seq<Piece>): nat {
    if ps == [] then 0 else (if ps[0] == Hit("@all") then 1 else 0) + AllHits(ps[1..])
  }

  function HitNames(ps: seq<Piece>): seq<string> {
    if ps == [] then []
    else if ps[0].Hit? && ps[0].k != "" then [ps[0].k[1..]] + HitNames(ps[1..])
    else HitNames(ps[1..])
  }

  predicate WellNamed(ps: seq<Piece>) {
    forall p | p in ps :: p.Hit? ==> |p.k| > 0 && p.k[0] == '@'
  }

  /** Rendering adds one character for each "@all" and changes nothing else. */
  lemma {:induction false} RenderedBack(env: Env, ps: seq<Piece>)
    requires !env.agent.WeChat? && WellNamed(ps)
    ensures |Body(env, Tagged(ps))| == |Join(ps)| + AllHits(ps)
    ensures AllHits(ps) == 0 ==> Body(env, Tagged(ps)) == Join(ps)
  {
    if ps != [] {
      var p, rest := ps[0], ps[1..];
      RenderedBack(env, rest);
      TagBody(env, p);
      var head, tail := BodyOf(env, Tag(p)), Body(env, Tagged(rest));
      assert Body(env, Tagged(ps)) == head + tail by {
        BodyCons(env, Tag(p), Tagged(rest));
      }
      assert Join(ps) == p.Str() + Join(rest);
    }
  }

  lemma {:induction false} MentionsBack(ps: seq<Piece>)
    requires WellNamed(ps) && AllHits(ps) == 0
    ensures MentionsIn(Tagged(ps)) == HitNames(ps)
  {
    if ps != [] {
      var p, rest := ps[0], ps[1..];
      MentionsBack(rest);
      MentionsCons(Tag(p), Tagged(rest));
      TagMention(p);
    }
  }

  lemma TagBody(env: Env, p: Piece)
    requires !env.agent.WeChat? && (p.Hit? ==> |p.k| > 0 && p.k[0] == '@')
    ensures BodyOf(env, Tag(p)) == if p == Hit("@all") then "@room" else p.Str()
  {
    if p.Hit? {
      assert p.k == "@" + p.k[1..];
    }
  }

  lemma TagMention(p: Piece)
    requires (p.Hit? ==> |p.k| > 0 && p.k[0] == '@') && p != Hit("@all")
    ensures MentionsIn([Tag(p)]) == if p.Hit? then [p.k[1..]] else []
  {
    assert MentionsIn([Tag(p)]) == MentionsIn([]) + if Tag(p).At? then [MatrixTarget(Tag(p).target)] else [];
    if p.Hit? {
      assert p.k == "@" + p.k[1..];
    }
  }

  lemma PiecesWellNamed(text: string, mentions: set<string>)
    ensures WellNamed(Pieces(text, mentions))
  {
    var ps := Pieces(text, mentions);
    MaximalMunchExact(text, mentions, ps);
    forall p | p in ps ensures p.Hit? ==> |p.k| > 0 && p.k[0] == '@' {
      var j :| 0 <= j < |ps| && ps[j] == p;
      assert Munched(Keywords(mentions), text, Offset(ps, j), ps[j]);
    }
  }

  lemma {:induction false} AllHitsMeans(ps: seq<Piece>)
    ensures AllHits(ps) == 0 <==> Hit("@all") !in ps
  {
    if ps != [] {
      AllHitsMeans(ps[1..]);
    }
  }

  lemma BodyAlone(env: Env, s: Segment)
    ensures Body(env, [s]) == BodyOf(env, s)
  {
    assert [s][..0] == [];
  }

  lemma NobodyCalledAll(text: string, mentions: set<string>)
    requires "all" !in mentions
    ensures Hit("@all") !in Pieces(text, mentions)
  {
    var ps := Pieces(text, mentions);
    MaximalMunchExact(text, mentions, ps);
    forall p | p in ps ensures p.Hit? ==> p.k in Keywords(mentions) {
      var j :| 0 <= j < |ps| && ps[j] == p;
      assert Munched(Keywords(mentions), text, Offset(ps, j), ps[j]);
    }
    forall k | k in Keywords(mentions) ensures k != "@all" {
      var m :| m in mentions && "@" + m == k;
      assert m == k[1..] && "@all"[1..] == "all";
    }
  }

  /** For every text and every mention list, rendering the produced segments gives the text back
      exactly when no piece of it is a mention of a user called "all". */
  lemma RoundTrip(env: Env, text: string, mentions: set<string>)
    requires !env.agent.WeChat?
    ensures Body(env, Segmentation(text, mentions)) == text <==> Hit("@all") !in Pieces(text, mentions)
  {
    var ps := Pieces(text, mentions);
    PiecesWellNamed(text, mentions);
    assert Join(ps) == text by {
      MaximalMunchExact(text, mentions, ps);
    }
    if mentions == {} {
      NobodyCalledAll(text, mentions);
      BodyAlone(env, Text(text));
    } else {
      RenderedBack(env, ps);
      AllHitsMeans(ps);
    }
  }

  /** When the text survives, the mentions found on the way back are the names cut out, in order. */
  lemma MentionsFound(text: string, mentions: set<string>)
    requires mentions != {} && Hit("@all") !in Pieces(text, mentions)
    ensures MentionsIn(Segmentation(text, mentions)) == HitNames(Pieces(text, mentions))
  {
    PiecesWellNamed(text, mentions);
    AllHitsMeans(Pieces(text, mentions));
    MentionsBack(Pieces(text, mentions));
  }

  lemma SomebodyCalledAll(mentions: set<string>)
    requires "all" in mentions
    ensures Hit("@all") in Pieces("@all", mentions)
  {
    var text, kws := "@all", Keywords(mentions);
    var ps := [Hit(text)];
    assert "@" + "all" == text && text in kws;
    assert LongestAt(kws, text, 0, text);
    assert Offset(ps, 0) == 0 && Munched(kws, text, 0, ps[0]);
    assert ps[1..] == [] && Join(ps) == text + "";
    MaximalMunchExact(text, mentions, ps);
  }

  /** The condition a caller can check: all texts survive exactly when nobody mentioned is called "all". */
  lemma RoundTripAlways(env: Env, mentions: set<string>)
    requires !env.agent.WeChat?
    ensures (forall text :: Body(env, Segmentation(text, mentions)) == text) <==> "all" !in mentions
  {
    if "all" in mentions {
      SomebodyCalledAll(mentions);
      RoundTrip(env, "@all", mentions);
    } else {
      forall text ensures Body(env, Segmentation(text, mentions)) == text {
        NobodyCalledAll(text, mentions);
        RoundTrip(env, text, mentions);
      }
    }
  }

  lemma PieceAt(text: string, mentions: set<string>, j: nat)
    requires j < |Pieces(text, mentions)|
    ensures var ps := Pieces(text, mentions);
      Munched(Keywords(mentions), text, Offset(ps, j), ps[j]) && (j + 1 < |ps| ==> Parted(ps, j))
  {
    MaximalMunchExact(text, mentions, Pieces(text, mentions));
  }

  /** With mentions, no text segment is empty and no two are adjacent. */
  lemma TextSegments(text: string, mentions: set<string>, j: nat)
    requires mentions != {} && j < |Segmentation(text, mentions)| && Segmentation(text, mentions)[j].Text?
    ensures var segments := Segmentation(text, mentions);
      segments[j].text != "" && (j + 1 < |segments| ==> segments[j + 1].At?)
  {
    PieceAt(text, mentions, j);
    assert Segmentation(text, mentions)[j] == Tag(Pieces(text, mentions)[j]);
  }

  predicate TextOrAt(segments: seq<Segment>) {
    forall i | 0 <= i < |segments| :: segments[i].Text? || segments[i].At?
  }

  lemma SegmentationIsPlain(text: string, mentions: set<string>)
    ensures TextOrAt(Segmentation(text, mentions))
  {
    if mentions != {} {
      var pieces := Pieces(text, mentions);
      forall i | 0 <= i < |pieces| ensures Tagged(pieces)[i].Text? || Tagged(pieces)[i].At? {
        assert Tagged(pieces)[i] == Tag(pieces[i]);
      }
    }
  }

  lemma {:induction false} NothingButText(segments: seq<Segment>, uploads: seq<Upload>, forwards: seq<Option<seq<Part>>>)
    requires TextOrAt(segments) && |uploads| == |forwards| == |segments|
    ensures MediaIn(segments, uploads) == [] && ForwardParts(segments, forwards).None?
  {
    if segments != [] {
      var n := |segments| - 1;
      assert !segments[n].Forward? && !HasMedia(segments[n]);
      NothingButText(segments[..n], uploads[..n], forwards[..n]);
    }
  }

  /** The round trip as `OnebotToMatrix` makes it: the produced segments become one part, a text, without
      reply target, and that text is the original one exactly when no piece of it mentions a user called
      "all". */
  lemma MatrixRoundTrip(env: Env, text: string, mentions: set<string>, uploads: seq<Upload>, forwards: seq<Option<seq<Part>>>)
    requires !env.agent.WeChat?
    requires |uploads| == |forwards| == |Segmentation(text, mentions)|
    ensures var segments := Segmentation(text, mentions);
      && ForwardParts(segments, forwards).None? && LastWhere(segments, IsReply).None?
      && PlainPart(env, segments, uploads).id == "0" && PlainPart(env, segments, uploads).content.Words?
      && (PlainPart(env, segments, uploads).content.body == text <==> Hit("@all") !in Pieces(text, mentions))
  {
    var segments := Segmentation(text, mentions);
    SegmentationIsPlain(text, mentions);
    NothingButText(segments, uploads, forwards);
    NothingLast(segments, IsCard);
    NothingLast(segments, IsReply);
    assert PlainPart(env, segments, uploads) == Part("0", Words(Body(env, segments)));
    RoundTrip(env, text, mentions);
  }
}
