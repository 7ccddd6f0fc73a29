/**
 * The knowledge lookup of `handle_message`: the FAQ list, loaded once, is
 * scanned in load order and the first entry whose lower-cased question
 * CONTAINS the lower-cased user message supplies the answer.
 */
module Faq {
  import opened Wrappers
  import opened Text

  /** One record of `faq_data["faq"]`. */
  datatype Entry = Entry(question: string, answer: string)

  /** The test on main.py line 89: the (already lower-cased) message is the
      needle and the entry's lower-cased question the haystack. */
  predicate Matches(message: string, e: Entry)
    ensures message == [] ==> Matches(message, e)
    ensures Matches(message, e) ==> |message| <= |e.question|
  {
    IsSubstring(message, Lower(e.question))
  }

  /** Index of the earliest matching entry, or None when no entry matches. */
  function FirstMatch(faq: seq<Entry>, message: string): (r: Option<nat>)
    ensures r.Some? ==> r.value < |faq| && Matches(message, faq[r.value])
    ensures r.Some? ==> forall j :: 0 <= j < r.value ==> !Matches(message, faq[j])
    ensures r.None? <==> forall j :: 0 <= j < |faq| ==> !Matches(message, faq[j])
  {
    if faq == [] then None
    else if Matches(message, faq[0]) then Some(0)
    else match FirstMatch(faq[1..], message)
      case None => None
      case Some(k) => Some(k + 1)
  }

  /** The answer the FAQ gives to a lower-cased message, if any. */
  function Lookup(faq: seq<Entry>, message: string): (r: Option<string>)
    ensures r.Some? <==> exists j :: 0 <= j < |faq| && Matches(message, faq[j])
    ensures r.Some? ==> exists k :: 0 <= k < |faq| && r.value == faq[k].answer &&
                                    Matches(message, faq[k]) &&
                                    forall j :: 0 <= j < k ==> !Matches(message, faq[j])
  {
    match FirstMatch(faq, message)
    case None => None
    case Some(k) => Some(faq[k].answer)
  }

  /** The `for ... else` loop of main.py lines 88-91: stop at the first entry
      whose question contains the message. */
  method FindAnswer(faq: seq<Entry>, message: string) returns (answer: Option<string>)
    ensures answer == Lookup(faq, message)
    ensures answer.Some? <==> exists j :: 0 <= j < |faq| && Matches(message, faq[j])
  {
    answer := None;
    var i := 0;
    while i < |faq|
      invariant 0 <= i <= |faq|
      invariant answer == None
      invariant forall j :: 0 <= j < i ==> !Matches(message, faq[j])
    {
      if Matches(message, faq[i]) {
        answer := Some(faq[i].answer);
        break;
      }
      i := i + 1;
    }
  }

  /** First-match property in the form of a quantified statement: whenever an
      entry matches, the answer comes from an entry at or before it, and every
      entry before that one does not match. */
  lemma FirstMatchWins(faq: seq<Entry>, message: string, e: nat)
    requires e < |faq| && Matches(message, faq[e])
    ensures exists k :: 0 <= k <= e && Lookup(faq, message) == Some(faq[k].answer)
                        && Matches(message, faq[k])
                        && forall j :: 0 <= j < k ==> !Matches(message, faq[j])
  {
    var k := FirstMatch(faq, message).value;
    assert k <= e;
  }

  /** Entries after the first match are never looked at: appending any
      entries, or changing those after the match, leaves the answer alone. */
  lemma {:induction false} LaterEntriesIgnored(faq: seq<Entry>, rest: seq<Entry>, message: string)
    requires FirstMatch(faq, message).Some?
    ensures FirstMatch(faq + rest, message) == FirstMatch(faq, message)
    ensures Lookup(faq + rest, message) == Lookup(faq, message)
  {
    if !Matches(message, faq[0]) {
      assert (faq + rest)[1..] == faq[1..] + rest;
      LaterEntriesIgnored(faq[1..], rest, message);
    }
  }

  /** When no entry of a prefix matches, the search goes on in what follows
      it, with indices shifted by the prefix length. */
  lemma UnmatchedPrefixSkipped(faq: seq<Entry>, rest: seq<Entry>, message: string)
    requires FirstMatch(faq, message).None?
    ensures FirstMatch(faq + rest, message) == Shift(FirstMatch(rest, message), |faq|)
  {
    var all := faq + rest;
    forall j | 0 <= j < |faq| ensures !Matches(message, all[j]) {
      assert all[j] == faq[j];
    }
    match FirstMatch(rest, message)
    case None =>
      forall j | |faq| <= j < |all| ensures !Matches(message, all[j]) {
        assert all[j] == rest[j - |faq|];
      }
    case Some(k) =>
      assert all[k + |faq|] == rest[k];
      forall j | |faq| <= j < k + |faq| ensures !Matches(message, all[j]) {
        assert all[j] == rest[j - |faq|];
      }
      var m := FirstMatch(all, message).value;
      assert m == k + |faq|;
  }

  function Shift(r: Option<nat>, n: nat): (s: Option<nat>)
    ensures s.None? == r.None?
  {
    if r.None? then None else Some(r.value + n)
  }

  /** The answer to a message is the answer of the entries after an
      unmatched prefix. */
  lemma UnmatchedPrefixSameAnswer(faq: seq<Entry>, rest: seq<Entry>, message: string)
    requires FirstMatch(faq, message).None?
    ensures Lookup(faq + rest, message) == Lookup(rest, message)
  {
    UnmatchedPrefixSkipped(faq, rest, message);
    if FirstMatch(rest, message).Some? {
      assert (faq + rest)[FirstMatch(rest, message).value + |faq|] == rest[FirstMatch(rest, message).value];
    }
  }

  /** Because the message is the needle, an empty message is contained in the
      first question and is answered by the first entry. */
  lemma EmptyMessageHitsFirstEntry(faq: seq<Entry>)
    requires faq != []
    ensures Lookup(faq, "") == Some(faq[0].answer)
  {
  }

  /** A message longer than every question never matches, however much of a
      question it contains. */
  lemma LongMessageNeverMatches(faq: seq<Entry>, message: string)
    requires forall j :: 0 <= j < |faq| ==> |faq[j].question| < |message|
    ensures Lookup(faq, message) == None
  {
    forall j | 0 <= j < |faq| ensures !Matches(message, faq[j]) {
      assert |faq[j].question| < |message|;
    }
  }
}
