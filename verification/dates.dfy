/**
 * The weekday arithmetic of the date reference injected into the prompt:
 * for today's weekday `dow` (0 = Sunday) and each weekday `i`, "this i" is
 * today plus `(i - dow + 7) % 7` days and "next i" is that plus 7.
 */
module Dates {

  /** The offset in days of "this <weekday i>", including the source's guard for a zero offset on another day. */
  function ThisWeekOffset(dow: nat, i: nat): (r: int)
    requires dow < 7 && i < 7
    ensures 0 <= r <= 6
    ensures r == 0 <==> i == dow
    ensures (dow + r) % 7 == i
  {
    var du := (i - dow + 7) % 7;
    if du == 0 && i != dow then 7 else du
  }

  /** The offset in days of "next <weekday i>": the same weekday one week further on. */
  function NextWeekOffset(dow: nat, i: nat): (r: nat)
    requires dow < 7 && i < 7
    ensures 7 <= r <= 13
    ensures (dow + r) % 7 == i
    ensures r == ThisWeekOffset(dow, i) + 7
  {
    (i - dow + 7) % 7 + 7
  }

  /** The guard `du === 0 && i !== dow` never fires: the offset is zero only for today. */
  lemma ZeroOffsetBranchUnreachable(dow: nat, i: nat)
    requires dow < 7 && i < 7
    ensures var du := (i - dow + 7) % 7; !(du == 0 && i != dow)
  {
  }
}
