/** The view state of the voting section (client/tmpl/modules/voting/votingSection.js):
    the module-level reactive variables `votingVar`, `verifiedVar` and
    `isModifying`, and the actions the view hands to the dispatcher. The
    router lookup `voting()` is passed in as its result; a dispatch that
    fails is an input flag, and each dispatch is recorded in a log. */
module VotingView {
  import opened JsValues
  import opened VotingEngine

  /** What the view asks the action dispatcher or the transaction layer to do. */
  datatype Dispatch =
    | CastVoteAction(votingIndex: nat, option: int, executesOnDecided: bool)
    | ModifyVoteAction(votingIndex: nat, option: int, remove: bool, executesOnDecided: bool)
    | ExecuteAction(votingAddress: string, option: int)

  class VotingSection {
    /** `votingVar`: the voting shown, as last looked up (undefined when not found). */
    var voting: Option<Voting>
    /** `verifiedVar`: the verified contract name, null until verified. */
    var verified: Option<string>
    /** `isModifying`: whether the next vote modifies an earlier one. */
    var isModifying: bool
    /** Every action handed over so far, oldest first. */
    var dispatched: seq<Dispatch>

    /** `onCreated`: clears the verification and runs `reload`. */
    constructor (found: Option<Voting>)
      ensures voting == found && verified == None && !isModifying && dispatched == []
    {
      voting := found;
      verified := None;
      isModifying := false;
      dispatched := [];
    }

    /** `reload`: shows the freshly looked-up voting and leaves modify mode. */
    method Reload(found: Option<Voting>)
      modifies this
      ensures voting == found && verified == None && !isModifying
      ensures dispatched == old(dispatched)
    {
      verified := None;
      voting := found;
      isModifying := false;
    }

    /** The "modify vote" control. */
    method StartModifying()
      modifies this
      ensures isModifying
      ensures voting == old(voting) && verified == old(verified) && dispatched == old(dispatched)
    {
      isModifying := true;
    }

    /** `castVote(option)`: a fresh vote outside modify mode, a modification
        inside it. Modify mode is left only once the dispatch has succeeded.
        With no voting found, reading its index throws before anything is
        dispatched. */
    method CastVote(lookup: Option<Voting>, option: int, executesOnDecided: bool, dispatchSucceeds: bool)
      modifies this
      ensures voting == old(voting) && verified == old(verified)
      ensures lookup.None? ==> dispatched == old(dispatched) && isModifying == old(isModifying)
      ensures lookup.Some? && !old(isModifying) ==>
        dispatched == old(dispatched) + [CastVoteAction(lookup.value.index, option, executesOnDecided)] &&
        !isModifying
      ensures lookup.Some? && old(isModifying) ==>
        dispatched == old(dispatched) + [ModifyVoteAction(lookup.value.index, option, false, executesOnDecided)] &&
        isModifying == !dispatchSucceeds
    {
      if lookup.None? {
        return;
      }
      if !isModifying {
        dispatched := dispatched + [CastVoteAction(lookup.value.index, option, executesOnDecided)];
      } else {
        dispatched := dispatched + [ModifyVoteAction(lookup.value.index, option, false, executesOnDecided)];
        if dispatchSucceeds {
          isModifying := false;
        }
      }
    }

    /** `removeVote`: a modification to option 0 that removes the vote. */
    method RemoveVote(lookup: Option<Voting>)
      modifies this
      ensures voting == old(voting) && verified == old(verified) && isModifying == old(isModifying)
      ensures lookup.None? ==> dispatched == old(dispatched)
      ensures lookup.Some? ==> dispatched == old(dispatched) + [ModifyVoteAction(lookup.value.index, 0, true, false)]
    {
      if lookup.Some? {
        dispatched := dispatched + [ModifyVoteAction(lookup.value.index, 0, true, false)];
      }
    }

    /** `executeVote(option)`: submits the execution, then reloads once the
        transaction has gone through. */
    method ExecuteVote(lookup: Option<Voting>, option: int, transactionSucceeds: bool, reloaded: Option<Voting>)
      modifies this
      ensures lookup.None? ==> voting == old(voting) && verified == old(verified) &&
                               isModifying == old(isModifying) && dispatched == old(dispatched)
      ensures lookup.Some? ==> dispatched == old(dispatched) + [ExecuteAction(lookup.value.address, option)]
      ensures lookup.Some? && transactionSucceeds ==> voting == reloaded && verified == None && !isModifying
      ensures lookup.Some? && !transactionSucceeds ==>
        voting == old(voting) && verified == old(verified) && isModifying == old(isModifying)
    {
      if lookup.None? {
        return;
      }
      dispatched := dispatched + [ExecuteAction(lookup.value.address, option)];
      if transactionSucceeds {
        Reload(reloaded);
      }
    }
  }

  /** A vote cast in modify mode that goes through ends modify mode, and the
      next vote is a fresh one again. */
  method ModifyThenVote(found: Voting, first: int, second: int)
    returns (actions: seq<Dispatch>, modifying: bool)
    ensures actions == [ModifyVoteAction(found.index, first, false, false), CastVoteAction(found.index, second, false)]
    ensures !modifying
  {
    var view := new VotingSection(Some(found));
    view.StartModifying();
    view.CastVote(Some(found), first, false, true);
    view.CastVote(Some(found), second, false, true);
    actions, modifying := view.dispatched, view.isModifying;
  }
}
