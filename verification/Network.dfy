/** The network as an oracle: what becomes of each submission and each account read is decided by a
    `World` that every theorem quantifies over. */
module Network {
  import opened Seqs

  /** The ledger keys a restore transaction names, by encoding. */
  type Footprint = seq<string>

  /** `Plain` parses and carries its soroban data. `Wrapped` parses to a fee bump, which has none of
      its own and which the plain transaction class that submission uses refuses. `Unparsable` does not
      parse when it is to be rebuilt; what the signer makes of it is up to the oracle. */
  datatype Form = Plain | Wrapped | Unparsable

  datatype Transaction = Transaction(footprint: Footprint, sequence: int, form: Form)

  datatype Verdict =
    | Deliver                                      // the ledger applies it if the sequence number fits
    | TooLate                                      // rejected as expired
    | FailOnChain                                  // included without effect, using up the sequence number
    | Refuse                                       // never reaches the ledger
    | LoseTrack(applied: bool, recognised: bool)   // the outcome could not be confirmed
    | AnswerRepeat(applied: bool)                  // included, but its answer is lost; the repeated send is found stale

  /** `moved` is how far other submitters advanced the account just before. `note` is the reported
      hash or error message. */
  datatype Weather = Weather(moved: nat, verdict: Verdict, note: string)

  /** The fate of the n-th submission and of the n-th account read (None: the read failed). */
  datatype World = World(submit: nat -> Weather, read: nat -> Option<nat>)

  /** The account's sequence number, the footprints restored so far, and how much of the world has
      been used up. */
  datatype Ledger = Ledger(sequence: int, landed: seq<Footprint>, submissions: nat, accountReads: nat)

  datatype Reply =
    | Confirmed(hash: string)
    | Stale(message: string)
    | Ambiguous(message: string)
    | Failed(message: string)

  datatype Submission = Submission(ledger: Ledger, reply: Reply, unseen: bool)

  /** One submission: signing, sending, repeating the send while it fails, and waiting for the result.
      `unseen` says that it took effect although the reply is not a confirmation. */
  function Submit(l: Ledger, tx: Transaction, w: World): Submission {
    var Weather(moved, verdict, note) := w.submit(l.submissions);
    var at := l.(sequence := l.sequence + moved, submissions := l.submissions + 1);
    var fits := tx.sequence == at.sequence + 1;
    var used := at.(sequence := tx.sequence);
    var applied := used.(landed := at.landed + [tx.footprint]);
    if tx.form.Wrapped? then Submission(at, Failed(note), false)
    else
      match verdict
      case Deliver => if fits then Submission(applied, Confirmed(note), false) else Submission(at, Stale(note), false)
      case TooLate => Submission(at, Stale(note), false)
      case FailOnChain => if fits then Submission(used, Failed(note), false) else Submission(at, Stale(note), false)
      case Refuse => Submission(at, Failed(note), false)
      case LoseTrack(happened, recognised) =>
        var reply := if recognised then Ambiguous(note) else Failed(note);
        if happened && fits then Submission(applied, reply, true) else Submission(at, reply, false)
      case AnswerRepeat(happened) =>
        if !fits then Submission(at, Stale(note), false)
        else if happened then Submission(applied, Stale(note), true)
        else Submission(used, Stale(note), false)
  }

  /** The transaction carries the number after the account's, as moved by then. */
  predicate FitsThen(l: Ledger, tx: Transaction, weather: Weather) { tx.sequence == l.sequence + weather.moved + 1 }

  /** When a submission is confirmed, found stale, or in doubt; and when it takes effect, confirmed or not. */
  lemma SubmitMeans(l: Ledger, tx: Transaction, w: World)
    ensures var s, weather := Submit(l, tx, w), w.submit(l.submissions);
      var fits, sent, v := FitsThen(l, tx, weather), !tx.form.Wrapped?, weather.verdict;
      (s.reply.Confirmed? <==> sent && v.Deliver? && fits) &&
      (s.reply.Stale? <==> sent && (v.TooLate? || v.AnswerRepeat? || (!fits && (v.Deliver? || v.FailOnChain?)))) &&
      (s.reply.Ambiguous? <==> sent && v.LoseTrack? && v.recognised) &&
      s.ledger.landed == l.landed +
        (if sent && fits && (v.Deliver? || ((v.LoseTrack? || v.AnswerRepeat?) && v.applied)) then [tx.footprint] else []) &&
      (s.unseen <==> s.ledger.landed != l.landed && !s.reply.Confirmed?)
  {
    assert l.landed + [] == l.landed;
  }

  /** `getAccount`: the sequence number as it stands, or None when the call fails for good. */
  function ReadAccount(l: Ledger, w: World): (Ledger, Option<int>) {
    match w.read(l.accountReads)
    case None => (l.(accountReads := l.accountReads + 1), None)
    case Some(moved) => (l.(sequence := l.sequence + moved, accountReads := l.accountReads + 1), Some(l.sequence + moved))
  }

  /** No submission's outcome is ever in doubt, and no answer to a send is lost. */
  ghost predicate Clear(w: World) {
    forall k :: !w.submit(k).verdict.LoseTrack? && !w.submit(k).verdict.AnswerRepeat?
  }

  /** Account reads always succeed. */
  ghost predicate Readable(w: World) {
    forall k :: w.read(k).Some?
  }
}
