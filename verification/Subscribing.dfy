/**
  Resuming a Subscription: the items it releases are read back in order and handed
  on, put back or passed over, and what became of each is written.
 */
module Subscribings {
  /** One item let go of, by its Subscription and which it is. */
  datatype Released = Released(subscription: string, journey: nat)

  /** What reading one back comes to: a pair, not a pair, or not now. */
  datatype Answer = Readable | Unreadable | NotNow

  datatype Fate = Picked | PutBack | PassedOver

  /** An earlier item of the same Subscription could not be read. */
  ghost predicate Blocked(items: seq<Released>, answers: seq<Answer>, i: nat)
    requires |answers| == |items| && i <= |items|
  {
    exists j :: 0 <= j < i < |items| && items[j].subscription == items[i].subscription && answers[j].NotNow?
  }

  /** What becomes of an item, told without the pass that decides it. */
  ghost function FateOf(items: seq<Released>, answers: seq<Answer>, i: nat): Fate
    requires |answers| == |items| && i < |items|
  {
    if Blocked(items, answers, i) || answers[i].NotNow? then PutBack
    else if answers[i].Readable? then Picked
    else PassedOver
  }

  ghost function Fates(items: seq<Released>, answers: seq<Answer>): seq<Fate>
    requires |answers| == |items|
  {
    seq(|items|, i requires 0 <= i < |items| => FateOf(items, answers, i))
  }

  /** The places, in order, where one fate befell. */
  ghost function Where(fates: seq<Fate>, fate: Fate): seq<nat> {
    if fates == [] then []
    else
      var n := |fates| - 1;
      Where(fates[..n], fate) + if fates[n] == fate then [n] else []
  }

  lemma {:induction false} WhereIs(fates: seq<Fate>, fate: Fate)
    ensures forall i: nat :: i in Where(fates, fate) <==> i < |fates| && fates[i] == fate
    ensures forall k, l :: 0 <= k < l < |Where(fates, fate)| ==> Where(fates, fate)[k] < Where(fates, fate)[l]
  {
    if fates != [] {
      var n := |fates| - 1;
      WhereIs(fates[..n], fate);
      var before := Where(fates[..n], fate);
      assert forall k :: 0 <= k < |before| ==> before[k] in before;
    }
  }

  /** The Subscriptions stalled so far. */
  ghost predicate Stalls(stalled: seq<string>, items: seq<Released>, answers: seq<Answer>, upTo: nat)
    requires |answers| == |items| && upTo <= |items|
  {
    forall name :: name in stalled <==> exists j :: 0 <= j < upTo && items[j].subscription == name && answers[j].NotNow?
  }

  lemma StallsGrows(stalled: seq<string>, items: seq<Released>, answers: seq<Answer>, i: nat)
    requires |answers| == |items| && i < |items| && Stalls(stalled, items, answers, i)
    ensures items[i].subscription in stalled <==> Blocked(items, answers, i)
    ensures answers[i].NotNow? && items[i].subscription !in stalled ==>
              Stalls(stalled + [items[i].subscription], items, answers, i + 1)
    ensures !(answers[i].NotNow? && items[i].subscription !in stalled) ==> Stalls(stalled, items, answers, i + 1)
  {
    var name, longer := items[i].subscription, stalled + [items[i].subscription];
    assert name in longer && forall s :: s in longer <==> s in stalled || s == name;
  }

  /** Go through what was let go of once. An answer is asked for only where the
      item's Subscription has not stalled. */
  method Pass(items: seq<Released>, answers: seq<Answer>)
    returns (picked: seq<nat>, again: seq<nat>, unreadable: seq<nat>)
    requires |answers| == |items|
    ensures picked == Where(Fates(items, answers), Picked)
    ensures again == Where(Fates(items, answers), PutBack)
    ensures unreadable == Where(Fates(items, answers), PassedOver)
    ensures |picked| + |again| + |unreadable| == |items|
  {
    picked, again, unreadable := [], [], [];
    var stalled: seq<string> := [];
    ghost var fates := Fates(items, answers);
    for i := 0 to |items|
      invariant picked == Where(fates[..i], Picked)
      invariant again == Where(fates[..i], PutBack)
      invariant unreadable == Where(fates[..i], PassedOver)
      invariant Stalls(stalled, items, answers, i)
      invariant |picked| + |again| + |unreadable| == i
    {
      StallsGrows(stalled, items, answers, i);
      assert fates[..i + 1][..i] == fates[..i] && fates[i] == FateOf(items, answers, i);
      if items[i].subscription in stalled {
        again := again + [i];
      } else {
        match answers[i] {
          case Readable => picked := picked + [i];
          case Unreadable => unreadable := unreadable + [i];
          case NotNow =>
            again := again + [i];
            stalled := stalled + [items[i].subscription];
        }
      }
    }
    assert fates[..|items|] == fates;
  }

  /** Nothing after a Subscription's first unread item is picked in that pass;
      what is picked is in release order; and every readable item with no unread
      one of its Subscription before it is picked. */
  lemma PickedKeepsOrder(items: seq<Released>, answers: seq<Answer>)
    requires |answers| == |items|
    ensures var picked := Where(Fates(items, answers), Picked);
            && (forall k, l :: 0 <= k < l < |picked| ==> picked[k] < picked[l])
            && (forall i: nat :: i in picked ==> i < |items| && answers[i].Readable? && !Blocked(items, answers, i))
            && (forall i: nat :: i < |items| && answers[i].Readable? && !Blocked(items, answers, i) ==> i in picked)
  {
    WhereIs(Fates(items, answers), Picked);
  }

  /** What becomes of an item in the end: handed on and off its queue, kept as
      failed, to be read again, or dropped as no pair. */
  datatype End = Delivered | KeptFailed | ReadAgain | Dropped

  /** A picked one's outcome is written; where the write fails it goes back. */
  function Done(handed: bool, written: bool): End {
    if !written then ReadAgain else if handed then Delivered else KeptFailed
  }

  ghost function EndOf(items: seq<Released>, answers: seq<Answer>, handed: seq<bool>, written: seq<bool>, i: nat): End
    requires |items| == |answers| == |handed| == |written| && i < |items|
  {
    match FateOf(items, answers, i)
    case Picked => Done(handed[i], written[i])
    case PutBack => ReadAgain
    case PassedOver => Dropped
  }

  ghost predicate Ascends(places: seq<nat>) {
    forall k, l :: 0 <= k < l < |places| ==> places[k] < places[l]
  }

  /** `places` are those of the picked that end so. */
  ghost predicate EndSo(places: seq<nat>, picked: seq<nat>, handed: seq<bool>, written: seq<bool>, end: End) {
    forall i: nat :: i in places <==> i in picked && i < |handed| && i < |written| && Done(handed[i], written[i]) == end
  }

  lemma EndSoGrows(places: seq<nat>, picked: seq<nat>, handed: seq<bool>, written: seq<bool>, end: End, i: nat)
    requires EndSo(places, picked, handed, written, end) && i < |handed| == |written|
    ensures EndSo(if Done(handed[i], written[i]) == end then places + [i] else places, picked + [i], handed, written, end)
  {
  }

  lemma AscendsGrows(places: seq<nat>, picked: seq<nat>, k: nat)
    requires Ascends(picked) && k < |picked| && Ascends(places) && forall i :: i in places ==> i in picked[..k]
    ensures Ascends(places + [picked[k]])
  {
    forall l | 0 <= l < |places| ensures places[l] < picked[k] {
      assert places[l] in picked[..k];
    }
  }

  /** Hand on what a pass picked, one after the other, and write what became of
      each; whether an inbox takes it and the outcome is written is free. */
  method HandOn(picked: seq<nat>, handed: seq<bool>, written: seq<bool>)
    returns (delivered: seq<nat>, kept: seq<nat>, again: seq<nat>)
    requires Ascends(picked) && |handed| == |written| && forall i :: i in picked ==> i < |handed|
    ensures EndSo(delivered, picked, handed, written, Delivered) && Ascends(delivered)
    ensures EndSo(kept, picked, handed, written, KeptFailed)
    ensures EndSo(again, picked, handed, written, ReadAgain)
    ensures |delivered| + |kept| + |again| == |picked|
  {
    delivered, kept, again := [], [], [];
    for k := 0 to |picked|
      invariant EndSo(delivered, picked[..k], handed, written, Delivered) && Ascends(delivered)
      invariant EndSo(kept, picked[..k], handed, written, KeptFailed)
      invariant EndSo(again, picked[..k], handed, written, ReadAgain)
      invariant |delivered| + |kept| + |again| == k
    {
      var i := picked[k];
      assert i in picked;
      assert picked[..k + 1] == picked[..k] + [i];
      EndSoGrows(delivered, picked[..k], handed, written, Delivered, i);
      EndSoGrows(kept, picked[..k], handed, written, KeptFailed, i);
      EndSoGrows(again, picked[..k], handed, written, ReadAgain, i);
      AscendsGrows(delivered, picked, k);
      match Done(handed[i], written[i]) {
        case Delivered => delivered := delivered + [i];
        case KeptFailed => kept := kept + [i];
        case ReadAgain => again := again + [i];
      }
    }
    assert picked[..|picked|] == picked;
  }

  ghost predicate Ends(places: seq<nat>, items: seq<Released>, answers: seq<Answer>, handed: seq<bool>, written: seq<bool>, end: End)
    requires |items| == |answers| == |handed| == |written|
  {
    forall i: nat :: i in places <==> i < |items| && EndOf(items, answers, handed, written, i) == end
  }

  /** A whole resume: read back what was let go of, hand on what was picked. Every
      item ends as its answer, its hand-on and its write say, once, and what is
      delivered is delivered in release order. */
  method Resume(items: seq<Released>, answers: seq<Answer>, handed: seq<bool>, written: seq<bool>)
    returns (delivered: seq<nat>, kept: seq<nat>, again: seq<nat>, dropped: seq<nat>)
    requires |items| == |answers| == |handed| == |written|
    ensures Ends(delivered, items, answers, handed, written, Delivered) && Ascends(delivered)
    ensures Ends(kept, items, answers, handed, written, KeptFailed)
    ensures Ends(again, items, answers, handed, written, ReadAgain)
    ensures Ends(dropped, items, answers, handed, written, Dropped)
    ensures |delivered| + |kept| + |again| + |dropped| == |items|
  {
    var picked, back;
    picked, back, dropped := Pass(items, answers);
    WhereIs(Fates(items, answers), Picked);
    WhereIs(Fates(items, answers), PutBack);
    WhereIs(Fates(items, answers), PassedOver);
    var unwritten;
    delivered, kept, unwritten := HandOn(picked, handed, written);
    again := back + unwritten;
  }

  /** An item not off its queue, so that a later resume lets go of it again. */
  predicate Stays(end: End) {
    end.ReadAgain? || end.KeptFailed?
  }

  /** Over resumes the order of a Subscription breaks exactly so: a delivered item
      goes past an earlier one that stays when that one was readable and was not both
      handed on and written. Handed on and not written, it will be handed on a second
      time; not handed on, it will arrive after what came later. */
  lemma OvertakenExactly(items: seq<Released>, answers: seq<Answer>, handed: seq<bool>, written: seq<bool>, i: nat, j: nat)
    requires |items| == |answers| == |handed| == |written| && i < j < |items|
    requires items[i].subscription == items[j].subscription && EndOf(items, answers, handed, written, j) == Delivered
    ensures var end := EndOf(items, answers, handed, written, i);
            && (Stays(end) <==> answers[i].Readable? && !(handed[i] && written[i]))
            && (end == KeptFailed <==> answers[i].Readable? && !handed[i] && written[i])
            && (end == ReadAgain <==> answers[i].Readable? && !written[i])
  {
    assert !Blocked(items, answers, j);
    assert !answers[i].NotNow? && !Blocked(items, answers, i);
  }

  /** No readable item of the pass is kept from being handed on or written. */
  ghost predicate AllTaken(answers: seq<Answer>, handed: seq<bool>, written: seq<bool>)
    requires |answers| == |handed| == |written|
  {
    forall i :: 0 <= i < |answers| && answers[i].Readable? ==> handed[i] && written[i]
  }

  /** So where every hand-on and every write succeeds nothing is overtaken. */
  lemma TakenIsNotOvertaken(items: seq<Released>, answers: seq<Answer>, handed: seq<bool>, written: seq<bool>, i: nat, j: nat)
    requires |items| == |answers| == |handed| == |written| && i < j < |items| && AllTaken(answers, handed, written)
    requires items[i].subscription == items[j].subscription && EndOf(items, answers, handed, written, j) == Delivered
    ensures !Stays(EndOf(items, answers, handed, written, i))
  {
    OvertakenExactly(items, answers, handed, written, i, j);
  }

  /** The two ways, in two items of one Subscription: the first kept as failed or put
      back though it was handed on, the second delivered. */
  lemma BothWaysOfOvertaking(name: string, first: nat, second: nat)
    ensures var items, answers := [Released(name, first), Released(name, second)], [Readable, Readable];
            && EndOf(items, answers, [false, true], [true, true], 0) == KeptFailed
            && EndOf(items, answers, [false, true], [true, true], 1) == Delivered
            && EndOf(items, answers, [true, true], [false, true], 0) == ReadAgain
            && EndOf(items, answers, [true, true], [false, true], 1) == Delivered
  {
  }
}
