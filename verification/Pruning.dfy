/** What pruning by text cutoffs means in time (internal/changelog/maintenance.go:35-61). */
module Pruning {
  import opened Digits
  import opened Changelog
  import opened HlcText
  import opened HlcOrder
  import opened Protocol

  /** The row was created in second `t`, `millis` milliseconds in. */
  ghost predicate CreatedAt(row: Row, t: Time, millis: nat) {
    && ValidTime(t) && millis < 1000 && t.nanos == millis * 1_000_000
    && row.createdAt == CreatedText(t, millis)
  }

  /** Row and cutoff share a second and the digits of one are a proper prefix of the other's. */
  predicate Misread(t: Time, millis: nat, cutoff: Time) {
    SecondOf(t) == SecondOf(cutoff) && ProperPrefix(Numeral(millis, 3, 10), Fraction(cutoff))
  }

  /** What retention is for: both flags and older than the retention time, or a delete older
      than the tombstone time. */
  predicate Outdated(row: Row, t: Time, retention: Time, tombstones: Time) {
    || (row.synced && row.peerAck && Instant(t) < Instant(retention))
    || (row.entry.kind.Delete? && Instant(t) < Instant(tombstones))
  }

  /** A maintenance pass removes exactly the outdated rows, unless a cutoff misreads the row;
      in particular it is right about every row of another second than the cutoffs. */
  lemma PrunesOutdated(rows: Rows, id: nat, t: Time, millis: nat, retention: Time, tombstones: Time)
    requires id in rows && CreatedAt(rows[id], t, millis) && ValidTime(retention) && ValidTime(tombstones)
    requires !Misread(t, millis, retention) && !Misread(t, millis, tombstones)
    ensures id in PruneRows(rows, TimeText(retention), TimeText(tombstones)) <==>
      !Outdated(rows[id], t, retention, tombstones)
  {
    CutoffRightIffNoClash(t, millis, retention);
    CutoffRightIffNoClash(t, millis, tombstones);
  }

  /** A row that a cutoff misreads and that only this cutoff concerns is treated the wrong way
      round. */
  lemma MisreadsAreWrong(rows: Rows, id: nat, t: Time, millis: nat, retention: Time, tombstones: Time)
    requires id in rows && CreatedAt(rows[id], t, millis) && ValidTime(retention) && ValidTime(tombstones)
    requires rows[id].synced && rows[id].peerAck && !rows[id].entry.kind.Delete? && Misread(t, millis, retention)
    ensures id in PruneRows(rows, TimeText(retention), TimeText(tombstones)) <==>
      Outdated(rows[id], t, retention, tombstones)
  {
    CutoffRightIffNoClash(t, millis, retention);
  }
}
