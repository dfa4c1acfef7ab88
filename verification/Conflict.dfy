/** Conflict resolution between a local and a remote entry of one path
    (internal/reconciler/conflict.go). */
module Conflict {
  import opened Changelog
  import opened Text

  /** The four policies a validated configuration can name. */
  datatype Policy = Lww | AlphaWins | KeepBoth | Manual

  datatype Verdict = Local | Remote | Blocked

  function ResolveLww(local: Entry, remote: Entry): Verdict {
    if CompareStamp(local.stamp, remote.stamp) >= 0 then Local else Remote
  }

  function ResolveAlphaWins(local: Entry, remote: Entry): Verdict {
    if LexCompare(local.node, remote.node) <= 0 then Local else Remote
  }

  /** The decision alone; moving the loser away under keep_both is `Evacuates`. */
  function Resolve(policy: Policy, local: Entry, remote: Entry): Verdict {
    if local.kind.Delete? && !remote.kind.Delete? then Remote
    else if remote.kind.Delete? && !local.kind.Delete? then Local
    else match policy
      case Lww => ResolveLww(local, remote)
      case AlphaWins => ResolveAlphaWins(local, remote)
      case KeepBoth => ResolveLww(local, remote)
      case Manual => Blocked
  }

  /** keep_both moves a file away exactly when neither special delete rule applied. */
  predicate Evacuates(policy: Policy, local: Entry, remote: Entry) {
    policy.KeepBoth? && local.kind.Delete? == remote.kind.Delete?
  }

  /** Both nodes judge the same pair of entries, each seeing its own as local. */
  predicate Agree(policy: Policy, a: Entry, b: Entry) {
    match Resolve(policy, a, b)
    case Local => Resolve(policy, b, a) == Remote
    case Remote => Resolve(policy, b, a) == Local
    case Blocked => Resolve(policy, b, a) == Blocked
  }

  /** Two differently named nodes reach one verdict about a pair of entries in every
      case but one: two non-delete entries, or two deletes, that carry the same stamp
      under a policy that compares stamps. Then each keeps its own. */
  lemma WinnerAgreement(policy: Policy, a: Entry, b: Entry)
    requires a.node != b.node
    ensures Agree(policy, a, b) <==>
      !((policy.Lww? || policy.KeepBoth?) && a.kind.Delete? == b.kind.Delete? && a.stamp == b.stamp)
    ensures !Agree(policy, a, b) ==> Resolve(policy, a, b) == Resolve(policy, b, a) == Local
    ensures Resolve(policy, a, b) == Blocked <==> policy.Manual? && a.kind.Delete? == b.kind.Delete?
  {
    LexFlip(a.node, b.node);
    LexZero(a.node, b.node);
  }

  /** What the three policies that pick a winner pick, of two edits: under alpha_wins the local
      one exactly if its node name is the same, begins the remote one's, or has the smaller
      character at the first difference; otherwise exactly if it is not the earlier one. */
  lemma EditVerdict(policy: Policy, local: Entry, remote: Entry)
    requires !policy.Manual? && !local.kind.Delete? && !remote.kind.Delete?
    ensures Resolve(policy, local, remote) == Local <==>
      if policy.AlphaWins? then local.node <= remote.node || exists k: nat :: SmallerAt(local.node, remote.node, k)
      else !Earlier(local.stamp, remote.stamp)
  {
    LexLessIff(local.node, remote.node);
    LexZero(local.node, remote.node);
  }

  /** Against a delete the edit wins, whatever the policy and the stamps. */
  lemma EditBeatsDelete(policy: Policy, edit: Entry, delete: Entry)
    requires !edit.kind.Delete? && delete.kind.Delete?
    ensures Resolve(policy, edit, delete) == Local && Resolve(policy, delete, edit) == Remote
    ensures !Evacuates(policy, edit, delete) && !Evacuates(policy, delete, edit)
  {
  }

  /** A node name that begins another wins over it under alpha_wins. */
  lemma ShorterNameWins(local: Entry, remote: Entry)
    requires local.kind.Delete? == remote.kind.Delete? && local.node < remote.node
    ensures Resolve(AlphaWins, local, remote) == Local && Resolve(AlphaWins, remote, local) == Remote
  {
    LexPrefix(local.node, remote.node[|local.node|..]);
    assert remote.node == local.node + remote.node[|local.node|..];
  }
}
