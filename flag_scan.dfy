/**
 * The flag parser of the variant-config loader: the "tied king" flag is set by
 * the first '0' or '1' anywhere in the stream ('1' means tied); every other
 * character is skipped, and a stream with neither digit leaves the flag as it was.
 */
module FlagScan {

  import opened Options

  predicate IsDecisionDigit(c: char)
  {
    c == '0' || c == '1'
  }

  /** The position of the first '0' or '1' in s, if there is one. */
  function FirstDecision(s: string): (r: Option<nat>)
    ensures r.Some? ==> r.value < |s| && IsDecisionDigit(s[r.value])
    ensures r.Some? ==> forall j :: 0 <= j < r.value ==> !IsDecisionDigit(s[j])
    ensures r.None? <==> forall j :: 0 <= j < |s| ==> !IsDecisionDigit(s[j])
  {
    if s == [] then None
    else if IsDecisionDigit(s[0]) then Some(0)
    else match FirstDecision(s[1..])
      case Some(i) => Some(i + 1)
      case None => None
  }

  /** The flag after scanning s, starting from `prior`: decided by the first digit, else unchanged. */
  function KingTiedAfter(s: string, prior: bool): (tied: bool)
  {
    match FirstDecision(s)
    case Some(i) => s[i] == '1'
    case None => prior
  }

  /** How many characters a scan of s reads: up to and including the first digit, else all of them. */
  function Consumed(s: string): (count: nat)
  {
    match FirstDecision(s)
    case Some(i) => i + 1
    case None => |s|
  }

  /**
   * Reads characters one at a time; at the first '0' or '1' sets the flag
   * ('1' gives true) and stops reading. Returns the flag and the number of
   * characters read.
   */
  method ScanKingTied(stream: string, kingTied: bool) returns (tied: bool, consumed: nat)
    ensures tied == KingTiedAfter(stream, kingTied)
    ensures consumed == Consumed(stream) && consumed <= |stream|
  {
    tied := kingTied;
    consumed := 0;
    while consumed < |stream|
      invariant consumed <= |stream|
      invariant forall j :: 0 <= j < consumed ==> !IsDecisionDigit(stream[j])
      invariant tied == kingTied
    {
      var flag := stream[consumed];
      consumed := consumed + 1;
      if flag == '0' || flag == '1' {
        tied := flag == '1';
        break;
      }
    }
  }

  /** The first digit found is the only one that can be: its position is pinned down by the scan order. */
  lemma FirstDecisionAt(s: string, i: nat)
    requires i < |s| && IsDecisionDigit(s[i])
    requires forall j :: 0 <= j < i ==> !IsDecisionDigit(s[j])
    ensures FirstDecision(s) == Some(i)
  {
  }

  /**
   * Independent reading of the flag: it is true iff some '1' has no '0' or '1'
   * before it, or the stream has no digit at all and the flag was already true.
   */
  lemma KingTiedCharacterisation(s: string, prior: bool)
    ensures KingTiedAfter(s, prior) <==>
              (exists i :: 0 <= i < |s| && s[i] == '1' && forall j :: 0 <= j < i ==> !IsDecisionDigit(s[j]))
              || (prior && forall j :: 0 <= j < |s| ==> !IsDecisionDigit(s[j]))
  {
    if i :| 0 <= i < |s| && s[i] == '1' && forall j :: 0 <= j < i ==> !IsDecisionDigit(s[j]) {
      FirstDecisionAt(s, i);
    }
  }

  /** Characters after the deciding digit are never consulted: replacing them changes nothing. */
  lemma DecidedIgnoresRest(s: string, tail: string, prior: bool)
    requires FirstDecision(s).Some?
    ensures Consumed(s[..Consumed(s)] + tail) == Consumed(s)
    ensures KingTiedAfter(s[..Consumed(s)] + tail, prior) == KingTiedAfter(s, prior)
  {
    var i := FirstDecision(s).value;
    var t := s[..i + 1] + tail;
    assert forall j :: 0 <= j <= i ==> t[j] == s[j];
    FirstDecisionAt(t, i);
  }

  /** The stream "1" ties the king, "0" unties it, and an empty stream keeps the prior value. */
  lemma SingleCharacterStreams(prior: bool)
    ensures KingTiedAfter("1", prior) && !KingTiedAfter("0", prior)
    ensures KingTiedAfter("", prior) == prior
  {
    FirstDecisionAt("1", 0);
    FirstDecisionAt("0", 0);
  }

  /** Leading noise is skipped: in "# tied: 1 0", the '1' decides. */
  lemma NoisyStream()
    ensures KingTiedAfter("# tied: 1 0", false)
  {
    FirstDecisionAt("# tied: 1 0", 8);
  }
}
