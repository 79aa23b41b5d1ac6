/**
 * The polling side of `relay.js`: one call of `verificarMensagens` takes the
 * fetched batch, skips unusable entries, and for each remaining entry
 * overwrites `entrada.json` with `{numero, mensagem}` and commits the same
 * record with one PUT. The first thrown error ends the batch.
 */
module Relay {
  import opened Wrappers
  import opened Text

  /** The JavaScript values a message field can hold, as far as the loop tells them apart. */
  datatype JsValue = Undefined | Null | Bool(b: bool) | Number(n: int) | Str(s: string) | Object

  /** JavaScript truthiness (`!v` is false). */
  predicate Truthy(v: JsValue) {
    match v
    case Undefined => false
    case Null => false
    case Bool(b) => b
    case Number(n) => n != 0
    case Str(s) => s != []
    case Object => true
  }

  /** An object entry of the fetched array; a missing field is `Undefined`. */
  datatype Entry = Entry(phone: JsValue, message: JsValue, fromMe: JsValue)

  /**
   * The outcome of `fetch` and `r.json()`: a thrown error, a parsed value that
   * is falsy or not an array, or an array. An array element that is not an
   * object (null, a number, a string) has no `phone`, so it is `None`.
   */
  datatype Fetched = FetchThrew | NotAnArray | Batch(items: seq<Option<Entry>>)

  /** The record written to `entrada.json` and carried by the PUT. */
  datatype Record = Record(numero: JsValue, mensagem: string)

  /** An I/O error thrown while handling one entry: by `writeFileSync` or by the awaited PUT. */
  datatype Fault = WriteThrows | PutThrows

  /** The one-slot file, the log of completed PUTs, and whether the batch was cut short. */
  datatype Progress = Progress(file: Option<Record>, puts: seq<Record>, aborted: bool)

  /** The filter of the loop: an object with truthy `phone` and `message` and falsy `fromMe`. */
  predicate Eligible(item: Option<Entry>) {
    && item.Some?
    && Truthy(item.value.phone)
    && Truthy(item.value.message)
    && !Truthy(item.value.fromMe)
  }

  /** The record for an entry whose message is a string: the phone as is, the message trimmed. */
  function RecordOf(e: Entry): Record
    requires e.message.Str?
  {
    Record(e.phone, Trim(e.message.s, IsJsBlank))
  }

  function FaultAt(faults: map<nat, Fault>, i: nat): Option<Fault> {
    if i in faults then Some(faults[i]) else None
  }

  /**
   * One iteration of the loop. A truthy message that is not a string makes
   * `.trim()` throw before anything is written.
   */
  function Step(p: Progress, item: Option<Entry>, fault: Option<Fault>): Progress {
    if !Eligible(item) then p
    else if !item.value.message.Str? then p.(aborted := true)
    else if fault == Some(WriteThrows) then p.(aborted := true)
    else if fault == Some(PutThrows) then Progress(Some(RecordOf(item.value)), p.puts, true)
    else
      var rec := RecordOf(item.value);
      Progress(Some(rec), p.puts + [rec], false)
  }

  /** The loop from index `i` on, stopping at the first thrown error. */
  function RunFrom(p: Progress, items: seq<Option<Entry>>, faults: map<nat, Fault>, i: nat): Progress
    requires i <= |items|
    decreases |items| - i
  {
    if i == |items| || p.aborted then p
    else RunFrom(Step(p, items[i], FaultAt(faults, i)), items, faults, i + 1)
  }

  /** One call of `verificarMensagens` from the slot `file` and the PUT log `puts`. */
  function Poll(file: Option<Record>, puts: seq<Record>, fetched: Fetched, faults: map<nat, Fault>): Progress {
    match fetched
    case FetchThrew => Progress(file, puts, true)
    case NotAnArray => Progress(file, puts, false)
    case Batch(items) => RunFrom(Progress(file, puts, false), items, faults, 0)
  }

  /**
   * Reference definition: the records a batch forwards when no I/O error
   * occurs, in array order. Filtered entries contribute nothing, and an
   * eligible entry whose message is not a string ends the batch.
   */
  function Forwardable(items: seq<Option<Entry>>): seq<Record> {
    if items == [] then []
    else if !Eligible(items[0]) then Forwardable(items[1..])
    else if !items[0].value.message.Str? then []
    else [RecordOf(items[0].value)] + Forwardable(items[1..])
  }

  /** Some eligible entry has a message that is not a string, so `.trim()` throws. */
  predicate Breaks(items: seq<Option<Entry>>) {
    if items == [] then false
    else (Eligible(items[0]) && !items[0].value.message.Str?) || Breaks(items[1..])
  }

  /** The last record of `recs`, or `file` if there is none. */
  function LastOr(file: Option<Record>, recs: seq<Record>): Option<Record> {
    if recs == [] then file else Some(recs[|recs| - 1])
  }

  /**
   * Without I/O errors, the loop PUTs exactly the forwardable records in
   * order, leaves the last of them in the file (the old file if there is
   * none), and aborts exactly when some message is not a string.
   */
  lemma {:induction false} RunWithoutFaults(p: Progress, items: seq<Option<Entry>>, i: nat)
    requires i <= |items| && !p.aborted
    ensures RunFrom(p, items, map[], i)
      == Progress(LastOr(p.file, Forwardable(items[i..])), p.puts + Forwardable(items[i..]), Breaks(items[i..]))
    decreases |items| - i
  {
    if i < |items| {
      var rest := items[i..];
      assert rest[1..] == items[i + 1..];
      var item := items[i];
      if !Eligible(item) {
        RunWithoutFaults(p, items, i + 1);
      } else if item.value.message.Str? {
        var rec := RecordOf(item.value);
        var q := Progress(Some(rec), p.puts + [rec], false);
        RunWithoutFaults(q, items, i + 1);
        assert p.puts + Forwardable(rest) == q.puts + Forwardable(items[i + 1..]);
      }
    }
  }

  /** The loop never removes a PUT from the log. */
  lemma {:induction false} RunKeepsPuts(p: Progress, items: seq<Option<Entry>>, faults: map<nat, Fault>, i: nat)
    requires i <= |items|
    ensures p.puts <= RunFrom(p, items, faults, i).puts
    decreases |items| - i
  {
    if i < |items| && !p.aborted {
      var q := Step(p, items[i], FaultAt(faults, i));
      RunKeepsPuts(q, items, faults, i + 1);
    }
  }

  /**
   * An I/O error only cuts the batch short: the PUTs made are a prefix of
   * those of the error-free run, and a run that does not abort is the
   * error-free run.
   */
  lemma {:induction false} FaultsOnlyTruncate(p: Progress, items: seq<Option<Entry>>, faults: map<nat, Fault>, i: nat)
    requires i <= |items| && !p.aborted
    ensures var r, f := RunFrom(p, items, faults, i), RunFrom(p, items, map[], i);
      r.puts <= f.puts && (!r.aborted ==> r == f)
    decreases |items| - i
  {
    if i < |items| {
      var item := items[i];
      var fault := FaultAt(faults, i);
      if !Eligible(item) {
        FaultsOnlyTruncate(p, items, faults, i + 1);
      } else if item.value.message.Str? {
        var rec := RecordOf(item.value);
        var q := Progress(Some(rec), p.puts + [rec], false);
        assert Step(p, item, None) == q;
        assert FaultAt(map[], i) == None;
        assert RunFrom(p, items, map[], i) == RunFrom(q, items, map[], i + 1);
        if fault == None {
          FaultsOnlyTruncate(q, items, faults, i + 1);
        } else {
          assert fault.value.WriteThrows? || fault.value.PutThrows?;
          var stop := Step(p, item, fault);
          assert stop.aborted && stop.puts == p.puts;
          assert RunFrom(p, items, faults, i) == RunFrom(stop, items, faults, i + 1) == stop;
          RunKeepsPuts(q, items, map[], i + 1);
        }
      }
    }
  }

  /**
   * After a run, `entrada.json` holds the record of the last PUT (its old
   * content if the run made none), or, when the batch was cut short, the
   * next record of the error-free run: the one whose PUT threw.
   */
  lemma {:induction false} FileAfterRun(p: Progress, items: seq<Option<Entry>>, faults: map<nat, Fault>, i: nat)
    requires i <= |items| && !p.aborted
    ensures var r, f := RunFrom(p, items, faults, i), RunFrom(p, items, map[], i);
      && |p.puts| <= |r.puts|
      && (|| r.file == (if |r.puts| == |p.puts| then p.file else Some(r.puts[|r.puts| - 1]))
          || (r.aborted && |r.puts| < |f.puts| && r.file == Some(f.puts[|r.puts|])))
    decreases |items| - i
  {
    var r := RunFrom(p, items, faults, i);
    if i == |items| {
      assert r == p;
    } else {
      var item := items[i];
      var fault := FaultAt(faults, i);
      var stop := Step(p, item, fault);
      if !Eligible(item) {
        FileAfterRun(p, items, faults, i + 1);
      } else if !item.value.message.Str? {
        assert r == stop == p.(aborted := true);
      } else {
        var rec := RecordOf(item.value);
        var q := Progress(Some(rec), p.puts + [rec], false);
        if fault == None {
          assert stop == q && r == RunFrom(q, items, faults, i + 1);
          FileAfterRun(q, items, faults, i + 1);
          RunKeepsPuts(q, items, faults, i + 1);
          assert r.puts[|p.puts|] == rec;
        } else {
          assert fault.value.WriteThrows? || fault.value.PutThrows?;
          assert r == stop && stop.puts == p.puts;
          if fault.value.PutThrows? {
            assert Step(p, item, None) == q;
            assert FaultAt(map[], i) == None;
            assert RunFrom(p, items, map[], i) == RunFrom(q, items, map[], i + 1);
            RunKeepsPuts(q, items, map[], i + 1);
          }
        }
      }
    }
  }

  /**
   * The relay keeps no memory between polls: fetching the same batch twice
   * forwards every record twice, and a batch that ends in a thrown `.trim()`
   * throws again at the same entry.
   */
  lemma ReplayForwardsTwice(file: Option<Record>, puts: seq<Record>, items: seq<Option<Entry>>)
    ensures var once := Poll(file, puts, Batch(items), map[]);
      var twice := Poll(once.file, once.puts, Batch(items), map[]);
      && once.aborted == Breaks(items)
      && twice.aborted == Breaks(items)
      && twice.puts == puts + Forwardable(items) + Forwardable(items)
  {
    assert items[0..] == items;
    RunWithoutFaults(Progress(file, puts, false), items, 0);
    var once := Poll(file, puts, Batch(items), map[]);
    RunWithoutFaults(Progress(once.file, once.puts, false), items, 0);
  }

  /**
   * Forwarding distributes over concatenation of batches, up to the first
   * entry that breaks the batch.
   */
  lemma {:induction false} ForwardableAppend(a: seq<Option<Entry>>, b: seq<Option<Entry>>)
    ensures Forwardable(a + b) == if Breaks(a) then Forwardable(a) else Forwardable(a) + Forwardable(b)
    ensures Breaks(a + b) == (Breaks(a) || Breaks(b))
  {
    if a == [] {
      assert a + b == b;
    } else {
      var x := a[0];
      assert (a + b)[0] == x && (a + b)[1..] == a[1..] + b;
      ForwardableAppend(a[1..], b);
    }
  }

  /** A filtered entry changes nothing, wherever it stands in the batch. */
  lemma SkippedContributeNothing(a: seq<Option<Entry>>, item: Option<Entry>, b: seq<Option<Entry>>)
    requires !Eligible(item)
    ensures Forwardable(a + [item] + b) == Forwardable(a + b)
    ensures Breaks(a + [item] + b) == Breaks(a + b)
  {
    assert a + [item] + b == a + ([item] + b);
    ForwardableAppend(a, [item] + b);
    ForwardableAppend(a, b);
    assert ([item] + b)[1..] == b;
  }

  /**
   * An eligible entry with a string message, after entries that do not
   * break the batch, contributes exactly its own record, in its place.
   */
  lemma EligibleForwardedInPlace(a: seq<Option<Entry>>, e: Entry, b: seq<Option<Entry>>)
    requires Eligible(Some(e)) && e.message.Str? && !Breaks(a)
    ensures Forwardable(a + [Some(e)] + b) == Forwardable(a) + [RecordOf(e)] + Forwardable(b)
  {
    assert a + [Some(e)] + b == a + ([Some(e)] + b);
    ForwardableAppend(a, [Some(e)] + b);
    assert ([Some(e)] + b)[1..] == b;
  }

  /** `entrada.json` and the PUT log, as `verificarMensagens` updates them. */
  class Relay {
    var file: Option<Record>
    var puts: seq<Record>

    constructor (initial: Option<Record>)
      ensures file == initial && puts == []
    {
      file := initial;
      puts := [];
    }

    /**
     * One poll. `faults` says which batch index, if any, meets a thrown I/O
     * error; the result says whether the catch was reached.
     */
    method VerifyMessages(fetched: Fetched, faults: map<nat, Fault>) returns (threw: bool)
      modifies this
      ensures var q := Poll(old(file), old(puts), fetched, faults);
        file == q.file && puts == q.puts && threw == q.aborted
    {
      match fetched
      case FetchThrew =>
        threw := true;
      case NotAnArray =>
        threw := false;
      case Batch(items) =>
        ghost var start := Progress(file, puts, false);
        threw := false;
        var i := 0;
        while i < |items| && !threw
          invariant 0 <= i <= |items|
          invariant RunFrom(Progress(file, puts, threw), items, faults, i) == RunFrom(start, items, faults, 0)
        {
          var item := items[i];
          if item.Some? && Truthy(item.value.phone) && Truthy(item.value.message) && !Truthy(item.value.fromMe) {
            match item.value.message {
              case Str(s) =>
                var rec := Record(item.value.phone, Trim(s, IsJsBlank));
                var fault := FaultAt(faults, i);
                if fault == Some(WriteThrows) {
                  threw := true;
                } else {
                  file := Some(rec);
                  if fault == Some(PutThrows) {
                    threw := true;
                  } else {
                    puts := puts + [rec];
                  }
                }
              case _ =>
                threw := true;
            }
          }
          i := i + 1;
        }
    }
  }
}
