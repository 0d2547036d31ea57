/**
 The local commentary selector (`generateLocalCommentary`). The source picks
 a template with `Math.random`; here that choice is the injected `roll`,
 reduced modulo the size of the pool.
 */
module Commentator {
  import opened Wrappers
  import opened Seqs
  import opened Types

  /** A horse that is at or past the line but not yet in the finisher list. */
  predicate AtLineUnlisted(h: Horse, finishers: seq<int>, trackLength: int)
  {
    h.position >= trackLength && h.id !in finishers
  }

  /** The name shown for `id` on the podium; "???" when unknown or empty. */
  function PodiumName(horses: seq<Horse>, id: int): (name: string)
    ensures (forall k :: 0 <= k < |horses| ==> horses[k].id != id) ==> name == "???"
    // the first horse carrying the id lends its name, "???" standing in for an empty one
    ensures forall k :: 0 <= k < |horses| && horses[k].id == id && (forall j :: 0 <= j < k ==> horses[j].id != id) ==>
      name == (if horses[k].name == "" then "???" else horses[k].name)
    ensures name != ""
  {
    match FirstWhere(horses, (h: Horse) => h.id == id)
    case None => "???"
    case Some(k) => if horses[k].name == "" then "???" else horses[k].name
  }

  predicate IsPodium(c: Commentary, horses: seq<Horse>, finishers: seq<int>)
  {
    && c.Podium?
    && |c.names| == Min(3, |finishers|)
    && forall k :: 0 <= k < |c.names| ==> c.names[k] == PodiumName(horses, finishers[k])
  }

  /**
   The priority-ordered choice: podium at a round end with a finisher, then
   "in progress" for an empty draw, then the first horse that is at the line
   but unlisted, then a template naming the first drawn horse, and the
   commotion fallback when that horse is unknown.
   */
  function LocalCommentary(drawnIds: seq<int>, horses: seq<Horse>, finishers: seq<int>,
                           trackLength: int, isRoundEnd: bool, roll: nat): (c: Commentary)
    ensures isRoundEnd && |finishers| >= 1 <==> c.Podium?
    ensures c.Podium? ==> IsPodium(c, horses, finishers)
    ensures c == InProgress <==> !(isRoundEnd && |finishers| >= 1) && |drawnIds| == 0
    ensures c.Finished? <==>
      && !(isRoundEnd && |finishers| >= 1)
      && |drawnIds| > 0
      && exists i :: 0 <= i < |horses| && AtLineUnlisted(horses[i], finishers, trackLength)
    ensures c.Finished? ==> c.template < FinishTemplateCount && exists i ::
      && 0 <= i < |horses|
      && AtLineUnlisted(horses[i], finishers, trackLength)
      && c.name == horses[i].name
      && forall j :: 0 <= j < i ==> !AtLineUnlisted(horses[j], finishers, trackLength)
    ensures c.Generic? ==> c.template < GenericTemplateCount && |drawnIds| > 0 && exists i ::
      && 0 <= i < |horses|
      && horses[i].id == drawnIds[0]
      && c.name == horses[i].name
      && forall j :: 0 <= j < i ==> horses[j].id != drawnIds[0]
    ensures c == Commotion <==>
      && !(isRoundEnd && |finishers| >= 1)
      && |drawnIds| > 0
      && (forall i :: 0 <= i < |horses| ==> !AtLineUnlisted(horses[i], finishers, trackLength))
      && (forall i :: 0 <= i < |horses| ==> horses[i].id != drawnIds[0])
  {
    if isRoundEnd && |finishers| >= 1 then
      Podium(seq(Min(3, |finishers|), k requires 0 <= k < Min(3, |finishers|) => PodiumName(horses, finishers[k])))
    else if |drawnIds| == 0 then
      InProgress
    else
      match FirstWhere(horses, (h: Horse) => AtLineUnlisted(h, finishers, trackLength))
      case Some(i) =>
        assert AtLineUnlisted(horses[i], finishers, trackLength);
        Finished(roll % FinishTemplateCount, horses[i].name)
      case None =>
        match FirstWhere(horses, (h: Horse) => h.id == drawnIds[0])
        case None => Commotion
        case Some(i) =>
          assert horses[i].id == drawnIds[0];
          Generic(roll % GenericTemplateCount, horses[i].name)
  }

  /**
   Podium names depend only on who the horses are, not on where they stand
   or what they have scored.
   */
  lemma PodiumIgnoresProgress(hs: seq<Horse>, hs': seq<Horse>, finishers: seq<int>)
    requires |hs| == |hs'|
    requires forall i :: 0 <= i < |hs| ==> SameIdentity(hs[i], hs'[i])
    ensures forall k :: 0 <= k < |finishers| ==> PodiumName(hs, finishers[k]) == PodiumName(hs', finishers[k])
  {
    forall k | 0 <= k < |finishers|
      ensures PodiumName(hs, finishers[k]) == PodiumName(hs', finishers[k])
    {
      var id := finishers[k];
      var a := FirstWhere(hs, (h: Horse) => h.id == id);
      var b := FirstWhere(hs', (h: Horse) => h.id == id);
      if a.Some? {
        assert hs'[a.value].id == id;
      }
      if b.Some? {
        assert hs[b.value].id == id;
      }
      assert a == b;
    }
  }
}
