/** What a query in the order of stamp texts means in time (internal/changelog/store.go:121-142). */
module StampTexts {
  import opened Changelog
  import opened Text
  import opened HlcText
  import opened HlcOrder
  import opened Stores

  /** The column holds the printed form of the stamp, a time and a counter. */
  predicate Prints(text: StampText, s: Stamp, t: Time, l: nat) {
    ValidTime(t) && l < COUNTER_LIMIT && s == StampOf(t, l) && text(s) == FormatHlc(t, l)
  }

  /** In a list ordered by text no entry comes before an earlier one, unless their stamps clash,
      and then a later one comes before the earlier. */
  lemma ListedInTime(out: seq<Entry>, text: StampText, i: nat, j: nat, a: Time, k: nat, b: Time, l: nat)
    requires TextOrdered(out, text) && i < j < |out|
    requires Prints(text, out[i].stamp, a, k) && Prints(text, out[j].stamp, b, l)
    ensures !Clash(a, b) ==> !Earlier(out[j].stamp, out[i].stamp)
    ensures Clash(a, b) ==> Earlier(out[j].stamp, out[i].stamp)
  {
    OrdersAgreeIffNoClash(a, k, b, l);
    CompareDecodes(a, k, b, l);
  }

  /** An entry is after the cursor exactly if it is later, unless it clashes with the cursor,
      and then exactly if it is earlier. */
  lemma AfterCursor(e: Entry, text: StampText, t: Time, k: nat, since: Time, l: nat)
    requires Prints(text, e.stamp, t, k) && ValidTime(since) && l < COUNTER_LIMIT
    ensures LexLess(FormatHlc(since, l), text(e.stamp)) <==>
      if Clash(since, t) then Earlier(e.stamp, StampOf(since, l)) else Earlier(StampOf(since, l), e.stamp)
  {
    OrdersAgreeIffNoClash(since, l, t, k);
    CompareDecodes(since, l, t, k);
  }
}
