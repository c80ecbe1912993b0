/** The sequential part that every `main` of the four programs shares: the
    positivity check on the parsed reader and writer counts, and the loop that
    decides, slot by slot, whether the next thread created is a reader or a
    writer and which id it receives.

    `rand()` is an oracle: `coins[n]` stands for the n-th evaluation of
    `rand() % 2 == 0` in that loop (true picks a reader). */
module Launch {

  datatype Role = Reader | Writer

  /** The argument a thread receives: its role and its id within that role. */
  datatype Participant = Participant(role: Role, id: nat)

  /** Counts that passed validation. */
  datatype Config = Config(numReaders: nat, numWriters: nat)

  datatype Validated = Accepted(config: Config) | InvalidConfiguration

  /** The check made right after `atoi`: both counts must be positive, otherwise
      the program exits before creating any synchronisation object. */
  function ValidateCounts(numReaders: int, numWriters: int): (r: Validated)
    ensures r.Accepted? <==> numReaders > 0 && numWriters > 0
    ensures r.Accepted? ==> r.config.numReaders == numReaders && r.config.numWriters == numWriters
  {
    if numReaders <= 0 || numWriters <= 0 then InvalidConfiguration
    else Accepted(Config(numReaders, numWriters))
  }

  /** The integers lo, lo + 1, ..., hi - 1 in increasing order. */
  function Span(lo: nat, hi: nat): seq<nat>
    decreases hi - lo
  {
    if lo >= hi then [] else [lo] + Span(lo + 1, hi)
  }

  lemma {:induction false} SpanIsRange(lo: nat, hi: nat)
    requires lo <= hi
    ensures |Span(lo, hi)| == hi - lo
    ensures forall k :: 0 <= k < hi - lo ==> Span(lo, hi)[k] == lo + k
    decreases hi - lo
  {
    if lo < hi {
      SpanIsRange(lo + 1, hi);
    }
  }

  /** The ids handed to participants of one role, in creation order. */
  function IdsOf(roster: seq<Participant>, role: Role): seq<nat>
  {
    if roster == [] then []
    else (if roster[0].role == role then [roster[0].id] else []) + IdsOf(roster[1..], role)
  }

  /** The threads the creation loop still creates once `readers` readers and
      `writers` writers exist and `used` coins have been drawn, consuming a coin
      only when both quotas are open (the short-circuit of `current_readers <
      num_readers && (current_writers == num_writers || rand() % 2 == 0)`). */
  function Deal(numReaders: nat, numWriters: nat, readers: nat, writers: nat, coins: seq<bool>, used: nat): (r: seq<Participant>)
    requires readers <= numReaders && writers <= numWriters
    requires used + (numReaders - readers) + (numWriters - writers) <= |coins|
    ensures |r| == (numReaders - readers) + (numWriters - writers)
    decreases (numReaders - readers) + (numWriters - writers)
  {
    if readers < numReaders && (writers == numWriters || coins[used]) then
      [Participant(Reader, readers)]
        + Deal(numReaders, numWriters, readers + 1, writers, coins, if writers == numWriters then used else used + 1)
    else if writers < numWriters then
      [Participant(Writer, writers)]
        + Deal(numReaders, numWriters, readers, writers + 1, coins, if readers < numReaders then used + 1 else used)
    else
      []
  }

  /** Whatever the coins say, the remaining slots are filled exactly: the
      readers still owed get ids readers..numReaders-1 in increasing order, and
      likewise for writers. */
  lemma {:induction false} DealMeetsQuotas(numReaders: nat, numWriters: nat, readers: nat, writers: nat, coins: seq<bool>, used: nat)
    requires readers <= numReaders && writers <= numWriters
    requires used + (numReaders - readers) + (numWriters - writers) <= |coins|
    ensures |Deal(numReaders, numWriters, readers, writers, coins, used)| == (numReaders - readers) + (numWriters - writers)
    ensures IdsOf(Deal(numReaders, numWriters, readers, writers, coins, used), Reader) == Span(readers, numReaders)
    ensures IdsOf(Deal(numReaders, numWriters, readers, writers, coins, used), Writer) == Span(writers, numWriters)
    decreases (numReaders - readers) + (numWriters - writers)
  {
    var d := Deal(numReaders, numWriters, readers, writers, coins, used);
    if readers < numReaders && (writers == numWriters || coins[used]) {
      var next := if writers == numWriters then used else used + 1;
      DealMeetsQuotas(numReaders, numWriters, readers + 1, writers, coins, next);
      assert d[1..] == Deal(numReaders, numWriters, readers + 1, writers, coins, next);
    } else if writers < numWriters {
      var next := if readers < numReaders then used + 1 else used;
      DealMeetsQuotas(numReaders, numWriters, readers, writers + 1, coins, next);
      assert d[1..] == Deal(numReaders, numWriters, readers, writers + 1, coins, next);
    }
  }

  /** Appending the next participant created to the created prefix keeps the
      prefix followed by what is still to create equal to the whole roster. */
  lemma Regroup(created: seq<Participant>, next: Participant, rest: seq<Participant>, whole: seq<Participant>)
    requires created + ([next] + rest) == whole
    ensures (created + [next]) + rest == whole
  {
    assert (created + [next]) + rest == created + ([next] + rest);
  }

  /** The creation loop of `main`, without the thread creation itself: it
      returns the participants in the order their threads are created. The
      loop's last `else` branch (which would print an error and retry the slot)
      is unreachable. */
  method AssignRoles(numReaders: nat, numWriters: nat, coins: seq<bool>) returns (roster: seq<Participant>)
    requires numReaders + numWriters <= |coins|
    ensures roster == Deal(numReaders, numWriters, 0, 0, coins, 0)
    ensures |roster| == numReaders + numWriters
    ensures IdsOf(roster, Reader) == Span(0, numReaders)
    ensures IdsOf(roster, Writer) == Span(0, numWriters)
  {
    var totalThreads := numReaders + numWriters;
    var currentReaders, currentWriters := 0, 0;
    var used := 0;  // how many times rand() has been called
    var i := 0;
    roster := [];
    ghost var whole := Deal(numReaders, numWriters, 0, 0, coins, 0);
    while i < totalThreads
      invariant currentReaders <= numReaders && currentWriters <= numWriters
      invariant i == currentReaders + currentWriters
      invariant used <= i
      invariant roster + Deal(numReaders, numWriters, currentReaders, currentWriters, coins, used) == whole
    {
      ghost var rest := Deal(numReaders, numWriters, currentReaders, currentWriters, coins, used);
      var pickReader := false;
      if currentReaders < numReaders {
        if currentWriters == numWriters {
          pickReader := true;
        } else {
          pickReader := coins[used];
          used := used + 1;
        }
      }
      if pickReader {
        assert rest == [Participant(Reader, currentReaders)] + Deal(numReaders, numWriters, currentReaders + 1, currentWriters, coins, used);
        Regroup(roster, Participant(Reader, currentReaders), Deal(numReaders, numWriters, currentReaders + 1, currentWriters, coins, used), whole);
        roster := roster + [Participant(Reader, currentReaders)];
        currentReaders := currentReaders + 1;
      } else if currentWriters < numWriters {
        assert rest == [Participant(Writer, currentWriters)] + Deal(numReaders, numWriters, currentReaders, currentWriters + 1, coins, used);
        Regroup(roster, Participant(Writer, currentWriters), Deal(numReaders, numWriters, currentReaders, currentWriters + 1, coins, used), whole);
        roster := roster + [Participant(Writer, currentWriters)];
        currentWriters := currentWriters + 1;
      } else {
        assert false;
      }
      i := i + 1;
    }
    DealMeetsQuotas(numReaders, numWriters, 0, 0, coins, 0);
  }
}
