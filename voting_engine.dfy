/** The governance-state computations of the voting view
    (client/tmpl/modules/voting/votingSection.js). Every contract call the
    view makes is replaced by its result, passed in as a parameter:
    `votingPowerForVoting` gives a `PowerTuple`, `countVotes` a `VoteCount`
    per option, `canPerformAction` a boolean, and the router path is a string. */
module VotingEngine {
  import opened JsValues

  /** The contract reports the option a holder voted for as 10 plus its
      index; 10 is therefore option 0, the approving option. */
  const OptionOffset: nat := 10

  /** `votingPowerForVoting`: [votable, modifiable, votedOption]. */
  datatype PowerTuple = PowerTuple(votable: nat, modifiable: nat, votedOption: nat)

  /** `countVotes(index, option)`: [votes for the option, votes cast, total voting power]. */
  datatype VoteCount = VoteCount(votes: nat, totalVotes: nat, totalVotingPower: nat)

  /** The cached voting record the view reads. `voteExecuted` is null until
      an option has been executed. */
  datatype Voting = Voting(
    index: nat,
    address: string,
    voteClosed: bool,
    voteExecuted: Option<int>,
    options: seq<string>,
    supportNeeded: real,
    description: string,
    entities: seq<string>)

  datatype VoteStatus = VoteStatus(voted: bool, votedOption: nat, modifiable: nat)

  datatype PendingVotes = PendingVotes(votes: int, relativeVotes: Quotient)

  datatype ExecutingOption = ExecutingOption(sentiment: string, index: nat, name: Option<string>)

  // ---------------------------------------------------------------------
  // Eligibility

  function CanVote(voting: Voting, power: PowerTuple): (r: bool)
    ensures voting.voteClosed ==> !r
    ensures !voting.voteClosed ==> (r <==> power.votable > 0)
  {
    !voting.voteClosed && power.votable > 0
  }

  function HasVoted(power: PowerTuple): (r: VoteStatus)
    ensures r.voted <==> power.modifiable > 0
    ensures r.votedOption == power.votedOption && r.modifiable == power.modifiable
  {
    VoteStatus(power.modifiable > 0, power.votedOption, power.modifiable)
  }

  function VotingPower(power: PowerTuple): (r: nat)
    ensures r == power.votable
  {
    power.votable
  }

  function CanModifyVote(voting: Voting, modifiable: int): (r: bool)
    ensures r <==> !voting.voteClosed && modifiable > 0
  {
    !voting.voteClosed && modifiable > 0
  }

  /** `modifyMode || await canVote()`: the power tuple is only consulted
      when not in modify mode. */
  function CanVoteOrModify(modifyMode: bool, voting: Voting, power: PowerTuple): (r: bool)
    ensures modifyMode ==> r
    ensures !modifyMode ==> (r <==> CanVote(voting, power))
  {
    modifyMode || CanVote(voting, power)
  }

  function IsExecuted(voting: Voting, option: int): (r: bool)
    ensures r <==> voting.voteClosed && voting.voteExecuted == Some(option)
  {
    voting.voteClosed && voting.voteExecuted == Some(option)
  }

  /** The option a reported `votedOption` stands for (undefined when out of range). */
  function GetOption(voting: Voting, votedOption: int): (r: Option<string>)
    ensures r.Some? <==> OptionOffset <= votedOption < OptionOffset + |voting.options|
    ensures r.Some? ==> r.value == voting.options[votedOption - OptionOffset]
  {
    OptionAt(voting.options, votedOption - OptionOffset)
  }

  // ---------------------------------------------------------------------
  // Tallies

  /** `reduce((acc, v) => acc + v[0], 0)`: the votes cast for every option. */
  function SumCast(counts: seq<VoteCount>): (r: nat)
    ensures r == 0 <==> forall i :: 0 <= i < |counts| ==> counts[i].votes == 0
  {
    if counts == [] then 0 else SumCast(counts[..|counts| - 1]) + counts[|counts| - 1].votes
  }

  /** Votes not yet cast, absolute and relative to the total voting power
      read from option 0. With no options, `allOptions[0]` is undefined and
      the call fails (None). */
  function PendingVotesOf(counts: seq<VoteCount>): (r: Option<PendingVotes>)
    ensures r.None? <==> counts == []
    ensures r.Some? ==> r.value.votes + SumCast(counts) == counts[0].totalVotingPower
    ensures r.Some? && counts[0].totalVotingPower > 0 ==>
      r.value.relativeVotes.Finite? &&
      r.value.relativeVotes.value * (counts[0].totalVotingPower as real) == r.value.votes as real
    ensures r.Some? && counts[0].totalVotingPower == 0 ==>
      (r.value.relativeVotes.NaN? <==> SumCast(counts) == 0) &&
      (r.value.relativeVotes.NegativeInfinity? <==> SumCast(counts) > 0)
  {
    if counts == [] then None
    else
      var total := counts[0].totalVotingPower;
      var votes := total - SumCast(counts);
      Some(PendingVotes(votes, Divide(votes, total)))
  }

  /** Every option's votes are part of the sum. */
  lemma {:induction false} SumCastCoversEachOption(counts: seq<VoteCount>, i: nat)
    requires i < |counts|
    ensures counts[i].votes <= SumCast(counts)
  {
    if i < |counts| - 1 {
      SumCastCoversEachOption(counts[..|counts| - 1], i);
    }
  }

  /** When no more votes were cast than there is power, the pending share
      lies between 0 and 1, and together with any option's votes it does not
      exceed the total. */
  lemma PendingVotesBounded(counts: seq<VoteCount>, i: nat)
    requires i < |counts|
    requires SumCast(counts) <= counts[0].totalVotingPower
    ensures PendingVotesOf(counts).Some?
    ensures 0 <= PendingVotesOf(counts).value.votes
    ensures PendingVotesOf(counts).value.votes + counts[i].votes <= counts[0].totalVotingPower
    ensures counts[0].totalVotingPower > 0 ==>
      0.0 <= PendingVotesOf(counts).value.relativeVotes.value <= 1.0
  {
    SumCastCoversEachOption(counts, i);
    var total := counts[0].totalVotingPower;
    var r := PendingVotesOf(counts).value;
    if total > 0 {
      RatioInUnitInterval(r.votes, total);
    }
  }

  lemma RatioInUnitInterval(a: int, b: int)
    requires 0 <= a <= b && b > 0
    ensures 0.0 <= (a as real) / (b as real) <= 1.0
  {
  }

  // ---------------------------------------------------------------------
  // Projected outcome

  /** A holder who has not voted for the approving option may still move
      their modifiable votes to it. */
  function EffectiveVotable(power: PowerTuple): (r: nat)
    ensures power.votedOption != OptionOffset ==> r == power.votable + power.modifiable
    ensures power.votedOption == OptionOffset ==> r == power.votable
  {
    if power.votedOption != OptionOffset then power.votable + power.modifiable else power.votable
  }

  /** Whether option 0 reaches the support threshold if the holder adds all
      the power they can still put behind it. `approve` is `countVotes` for
      option 0. The source adds `approve.votes` without converting it to a
      number first; this is the integer sum it evidently means (see
      `WillBeAbleToExecuteAsWritten`). */
  function WillBeAbleToExecute(voting: Voting, power: PowerTuple, approve: VoteCount): (r: bool)
    ensures approve.totalVotingPower > 0 ==>
      (r <==> ((approve.votes + EffectiveVotable(power)) as real) / (approve.totalVotingPower as real) >= voting.supportNeeded)
    ensures approve.totalVotingPower == 0 ==> (r <==> approve.votes + EffectiveVotable(power) > 0)
  {
    AtLeast(Divide(approve.votes + EffectiveVotable(power), approve.totalVotingPower), voting.supportNeeded)
  }

  /** More votable power never turns a projected success into a failure. */
  lemma WillBeAbleToExecuteMonotone(voting: Voting, power: PowerTuple, more: nat, approve: VoteCount)
    requires approve.totalVotingPower > 0
    requires WillBeAbleToExecute(voting, power, approve)
    ensures WillBeAbleToExecute(voting, power.(votable := power.votable + more), approve)
  {
    var t := approve.totalVotingPower as real;
    var a := (approve.votes + EffectiveVotable(power)) as real;
    var b := (approve.votes + EffectiveVotable(power.(votable := power.votable + more))) as real;
    assert a <= b;
    assert a / t <= b / t by {
      assert b / t - a / t == (b - a) / t;
    }
  }

  /** Without modifiable votes the reported option does not matter. */
  lemma EffectiveVotableIgnoresOptionWithoutModifiable(power: PowerTuple, option: nat)
    requires power.modifiable == 0
    ensures EffectiveVotable(power.(votedOption := option)) == EffectiveVotable(power) == power.votable
  {
  }

  // ---------------------------------------------------------------------
  // Execution

  /** `canExecute`: the approving option is offered when no execution is
      recorded and the company allows the action. The source reads
      `voteExecuted` from a fresh `voting()` lookup and the option name from
      its own `options` argument; both are taken from one `Voting` here. */
  function CanExecute(voting: Voting, canPerform: bool): (r: Option<ExecutingOption>)
    ensures voting.voteExecuted.Some? ==> r.None?
    ensures voting.voteExecuted.None? ==> (r.Some? <==> canPerform)
    ensures r.Some? ==> r.value == ExecutingOption("primary", 0, OptionAt(voting.options, 0))
  {
    if voting.voteExecuted.Some? then None
    else if canPerform then Some(ExecutingOption("primary", 0, OptionAt(voting.options, 0)))
    else None
  }

  // ---------------------------------------------------------------------
  // Relations between the helpers

  /** The "modify" control is offered exactly when the holder has voted and
      the voting is open. */
  lemma CanModifyIffVotedAndOpen(voting: Voting, power: PowerTuple)
    ensures CanModifyVote(voting, HasVoted(power).modifiable) <==> !voting.voteClosed && HasVoted(power).voted
  {
  }

  /** A closed voting offers neither voting nor modifying, outside modify mode. */
  lemma ClosedVotingOffersNothing(voting: Voting, power: PowerTuple, modifiable: int)
    requires voting.voteClosed
    ensures !CanVote(voting, power) && !CanModifyVote(voting, modifiable)
    ensures !CanVoteOrModify(false, voting, power)
  {
  }

  /** An option shown as executed is never offered for execution again. */
  lemma ExecutedIsNotExecutable(voting: Voting, option: int, canPerform: bool)
    requires IsExecuted(voting, option)
    ensures CanExecute(voting, canPerform).None?
  {
  }

  /** The reported option of a holder who voted for option i names option i. */
  lemma GetOptionDecodes(voting: Voting, i: nat)
    requires i < |voting.options|
    ensures GetOption(voting, OptionOffset + i) == Some(voting.options[i])
  {
  }

  /** The execute control offers the approving option, the one reported as 10. */
  lemma ExecutingOptionIsApprove(voting: Voting, canPerform: bool)
    requires CanExecute(voting, canPerform).Some?
    ensures CanExecute(voting, canPerform).value.name == GetOption(voting, OptionOffset)
  {
  }

  // ---------------------------------------------------------------------
  // Description formatting

  /** `formatEntity`: a link to the entity page under the current route,
      whose text is the entity itself. The anchor markup holds a space. */
  function FormatEntity(path: string, entity: string): (r: string)
    ensures |r| >= |entity| + 4 && r[|r| - |entity| - 4..] == entity + "</a>"
    ensures ' ' in r
  {
    var r := "<a href=\"" + path + "/entity/" + entity + "\" class=\"highlightedEntity\">" + entity + "</a>";
    assert r[|"<a href=\""| + |path| + |"/entity/"| + |entity| + 1] == ' ';
    r
  }

  function FormatWord(entities: seq<string>, path: string, word: string): string
  {
    if word in entities then FormatEntity(path, word) else word
  }

  /** `.map(x => entities contains x ? formatEntity(x) : x)`. */
  function FormatWords(entities: seq<string>, path: string, words: seq<string>): (r: seq<string>)
    ensures |r| == |words|
    ensures forall i :: 0 <= i < |words| && words[i] !in entities ==> r[i] == words[i]
    ensures forall i :: 0 <= i < |words| && words[i] in entities ==> r[i] == FormatEntity(path, words[i])
  {
    seq(|words|, i requires 0 <= i < |words| => FormatWord(entities, path, words[i]))
  }

  /** `formatDescription`: the space-join of exactly as many pieces as the
      description has words; entity words become links, the others are
      kept. */
  function FormatDescription(voting: Voting, path: string): (r: string)
    ensures
      var words := Split(voting.description, ' ');
      exists out: seq<string> ::
        && r == Join(out, ' ')
        && |out| == |words|
        && (forall i :: 0 <= i < |words| ==>
              out[i] == (if words[i] in voting.entities then FormatEntity(path, words[i]) else words[i]))
  {
    Join(FormatWords(voting.entities, path, Split(voting.description, ' ')), ' ')
  }

  /** A description none of whose words is an entity comes back unchanged. */
  lemma FormatDescriptionPlain(voting: Voting, path: string)
    requires forall w :: w in Split(voting.description, ' ') ==> w !in voting.entities
    ensures FormatDescription(voting, path) == voting.description
  {
    var words := Split(voting.description, ' ');
    assert FormatWords(voting.entities, path, words) == words;
    JoinSplit(voting.description, ' ');
  }

  // ---------------------------------------------------------------------
  // The arithmetic as written

  function Pow10(n: nat): nat
  {
    if n == 0 then 1 else 10 * Pow10(n - 1)
  }

  lemma AllDigitsConcat(a: string, b: string)
    requires AllDigits(a) && AllDigits(b)
    ensures AllDigits(a + b)
  {
  }

  lemma {:induction false} DigitsValueConcat(a: string, b: string)
    requires AllDigits(a) && AllDigits(b)
    ensures AllDigits(a + b)
    ensures DigitsValue(a + b) == DigitsValue(a) * Pow10(|b|) + DigitsValue(b)
  {
    AllDigitsConcat(a, b);
    if b == [] {
      assert a + b == a;
    } else {
      var b' := b[..|b| - 1];
      assert (a + b)[..|a + b| - 1] == a + b';
      assert (a + b)[|a + b| - 1] == b[|b| - 1];
      AllDigitsConcat(a, b');
      DigitsValueConcat(a, b');
      var last := (b[|b| - 1] as int) - ('0' as int);
      assert DigitsValue(a + b) == DigitsValue(a + b') * 10 + last;
      assert DigitsValue(b) == DigitsValue(b') * 10 + last;
      ShiftDecimal(DigitsValue(a), Pow10(|b'|), DigitsValue(b'), last);
    }
  }

  lemma ShiftDecimal(x: nat, p: nat, y: nat, last: int)
    ensures (x * p + y) * 10 + last == x * (10 * p) + (y * 10 + last)
  {
  }

  /** `currentVotes + votable` as the source writes it: `currentVotes` is a
      big-number object whose primitive value is its decimal string, so `+`
      concatenates strings, and `/` then reads the concatenation back as a
      number. */
  function AsWrittenFutureVotes(current: nat, votable: nat): (r: nat)
    ensures r == current * Pow10(|NatToString(votable)|) + votable
    ensures current == 0 ==> r == votable
  {
    DigitsValueConcat(NatToString(current), NatToString(votable));
    DigitsValueOfNatToString(current);
    DigitsValueOfNatToString(votable);
    DigitsValue(NatToString(current) + NatToString(votable))
  }

  /** `willBeAbleToExecute` as written. It agrees with the intended
      version while option 0 has no votes yet. */
  function WillBeAbleToExecuteAsWritten(voting: Voting, power: PowerTuple, approve: VoteCount): (r: bool)
    ensures approve.votes == 0 ==> r == WillBeAbleToExecute(voting, power, approve)
  {
    AtLeast(Divide(AsWrittenFutureVotes(approve.votes, EffectiveVotable(power)), approve.totalVotingPower),
            voting.supportNeeded)
  }

  /** 40 approving votes of 100, a holder with 5 more, half needed: the sum
      is 45 (45%, not enough) but the concatenation "405" reads as 405%. */
  lemma AsWrittenOverstatesSupport()
    ensures
      var voting := Voting(0, "", false, None, ["approve", "reject"], 0.5, "", []);
      var power := PowerTuple(5, 0, OptionOffset);
      var approve := VoteCount(40, 40, 100);
      WillBeAbleToExecuteAsWritten(voting, power, approve) && !WillBeAbleToExecute(voting, power, approve)
  {
    assert NatToString(40) == "40" by {
      assert NatToString(4) == "4";
    }
    assert NatToString(5) == "5";
    assert DigitsValue("405") == 405 by {
      assert "405"[..2] == "40";
      assert "40"[..1] == "4";
      assert "4"[..0] == "";
    }
    assert NatToString(40) + NatToString(5) == "405";
    assert AsWrittenFutureVotes(40, 5) == DigitsValue("405");
  }

  // ---------------------------------------------------------------------
  // Scenarios

  /** A holder with nothing votable but 5 modifiable votes on option 0. */
  lemma ScenarioModifiableOnly()
    ensures
      var voting := Voting(0, "", false, None, ["approve", "reject"], 0.5, "", []);
      var power := PowerTuple(0, 5, 10);
      !CanVote(voting, power) && HasVoted(power) == VoteStatus(true, 10, 5)
  {
  }

  /** 10 votable and 5 modifiable on option 3: 40 + 15 of 100 reaches half. */
  lemma ScenarioSwingToApprove()
    ensures
      var voting := Voting(0, "", false, None, ["approve", "reject"], 0.5, "", []);
      WillBeAbleToExecute(voting, PowerTuple(10, 5, 3), VoteCount(40, 100, 100))
  {
  }
}
