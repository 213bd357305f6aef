/** Publishing a JSON file in `_atomic_write.py`: a temporary sibling is written and moved over the target, through a
    retry ladder whose waits `_backoff.py` computes. Any step may fail, and the machine may stop after any of them. */
module AtomicWrite {
  import opened Options

  // ---------- waits ----------

  function Power2(n: nat): (p: real)
    ensures p >= 1.0
  {
    if n == 0 then 1.0 else 2.0 * Power2(n - 1)
  }

  function Min(a: real, b: real): real { if a < b then a else b }

  function Max(a: real, b: real): real { if a > b then a else b }

  const MAX_EXPONENT := 62

  function CappedExponential(exponent: nat, base: real, cap: real): real {
    Min(base * Power2(if exponent < MAX_EXPONENT then exponent else MAX_EXPONENT), cap)
  }

  function JitteredBackoff(exponent: nat, base: real, cap: real, fraction: real, unit: real): real {
    var nominal := CappedExponential(exponent, base, cap);
    Min(cap, Max(0.0, nominal + Jitter(Spread(nominal, fraction), unit)))
  }

  function Spread(nominal: real, fraction: real): real { nominal * fraction }

  function Jitter(spread: real, unit: real): real { spread * (2.0 * unit - 1.0) }

  lemma SpreadIsPart(nominal: real, fraction: real)
    requires nominal >= 0.0 && 0.0 <= fraction <= 1.0
    ensures 0.0 <= Spread(nominal, fraction) <= nominal
  {
    Product(nominal, fraction);
    Product(nominal, 1.0 - fraction);
  }

  lemma Clamped(nominal: real, spread: real, jitter: real, cap: real)
    requires 0.0 <= nominal <= cap && 0.0 <= spread <= nominal && -spread <= jitter <= spread
    ensures var wait := Min(cap, Max(0.0, nominal + jitter));
      0.0 <= wait <= cap && nominal - spread <= wait <= nominal + spread
  {}

  /** A wait is never negative, never above the cap, and strays from the nominal by at most the fraction. */
  lemma BackoffBounds(exponent: nat, base: real, cap: real, fraction: real, unit: real)
    requires base >= 0.0 && cap >= 0.0 && 0.0 <= fraction <= 1.0 && 0.0 <= unit <= 1.0
    ensures var nominal := CappedExponential(exponent, base, cap);
      var wait := JitteredBackoff(exponent, base, cap, fraction, unit);
      0.0 <= wait <= cap && nominal - Spread(nominal, fraction) <= wait <= nominal + Spread(nominal, fraction)
  {
    hide CappedExponential, Min, Max, Spread, Jitter;
    var nominal := CappedExponential(exponent, base, cap);
    NominalIsNonNegative(exponent, base, cap);
    SpreadIsPart(nominal, fraction);
    Within(Spread(nominal, fraction), unit);
    Clamped(nominal, Spread(nominal, fraction), Jitter(Spread(nominal, fraction), unit), cap);
  }

  lemma NominalIsNonNegative(exponent: nat, base: real, cap: real)
    requires base >= 0.0 && cap >= 0.0
    ensures 0.0 <= CappedExponential(exponent, base, cap) <= cap
  {
    Product(base, Power2(if exponent < MAX_EXPONENT then exponent else MAX_EXPONENT));
  }

  lemma Product(a: real, b: real)
    requires a >= 0.0 && b >= 0.0
    ensures a * b >= 0.0
  {}

  lemma Within(spread: real, unit: real)
    requires spread >= 0.0 && 0.0 <= unit <= 1.0
    ensures -spread <= Jitter(spread, unit) <= spread
  {
    Product(spread, unit);
    Product(spread, 1.0 - unit);
  }

  const ATTEMPTS := 10
  const BASE_SECONDS := 0.005
  const MAX_SLEEP_SECONDS := 0.15
  const JITTER_FRACTION := 0.25

  /** A draw of `random.random()`. */
  type Draw = x: real | 0.0 <= x < 1.0 witness 0.0

  function LadderWait(attempt: nat, draw: Draw): real {
    JitteredBackoff(attempt, BASE_SECONDS, MAX_SLEEP_SECONDS, JITTER_FRACTION, draw)
  }

  /** The waits before attempts 1 to n. */
  function TotalWait(draws: nat -> Draw, n: nat): real {
    if n == 0 then 0.0 else TotalWait(draws, n - 1) + LadderWait(n - 1, draws(n - 1))
  }

  /** The waits without jitter: 5, 10, 20, 40 and 80 ms, then the cap. */
  function NominalWait(attempt: nat): real {
    if attempt == 0 then 0.005 else if attempt == 1 then 0.01 else if attempt == 2 then 0.02
    else if attempt == 3 then 0.04 else if attempt == 4 then 0.08 else 0.15
  }

  /** Each wait is within a quarter of its nominal and under the cap; the draw moves it from one end to the other. */
  lemma LadderWaits(attempt: nat, draw: Draw)
    ensures CappedExponential(attempt, BASE_SECONDS, MAX_SLEEP_SECONDS) == NominalWait(attempt)
    ensures var n, wait := NominalWait(attempt), LadderWait(attempt, draw);
      && 0.75 * n <= wait <= 1.25 * n && wait <= 0.15
      && (draw == 0.0 ==> wait == 0.75 * n) && (draw == 0.5 ==> wait == n)
  {
    hide Power2;
    Powers();
    if 5 <= attempt { PowerGrows(if attempt < MAX_EXPONENT then attempt else MAX_EXPONENT); }
    BackoffBounds(attempt, BASE_SECONDS, MAX_SLEEP_SECONDS, JITTER_FRACTION, draw);
  }

  lemma Powers()
    ensures Power2(0) == 1.0 && Power2(1) == 2.0 && Power2(2) == 4.0 && Power2(3) == 8.0 && Power2(4) == 16.0
  {}

  lemma {:induction false} PowerGrows(n: nat)
    requires n >= 5
    ensures Power2(n) >= 32.0
  {
    Powers();
    if n > 5 { PowerGrows(n - 1); }
  }

  /** A caller that holds a lock across the whole ladder holds it under 0.8 s, whatever is drawn. */
  lemma LadderIsShort(draws: nat -> Draw, n: nat)
    requires n <= ATTEMPTS - 1
    ensures 0.0 <= TotalWait(draws, n) <= 0.79375
  {
    hide LadderWait;
    forall k: nat ensures 0.75 * NominalWait(k) <= LadderWait(k, draws(k)) <= 1.25 * NominalWait(k)
                  ensures LadderWait(k, draws(k)) <= 0.15 {
      LadderWaits(k, draws(k));
    }
    var t := k requires 0 <= k => TotalWait(draws, k);
    assert t(3) == LadderWait(0, draws(0)) + LadderWait(1, draws(1)) + LadderWait(2, draws(2));
    assert t(6) == t(3) + LadderWait(3, draws(3)) + LadderWait(4, draws(4)) + LadderWait(5, draws(5));
    assert t(9) == t(6) + LadderWait(6, draws(6)) + LadderWait(7, draws(7)) + LadderWait(8, draws(8));
  }

  // ---------- files ----------

  type Files = map<string, string>

  /** A directory; `log` is every state it has passed through, any of which a reader or a crash may find. */
  class Directory {
    var files: Files
    ghost var log: seq<Files>

    constructor (files: Files)
      ensures this.files == files && log == []
    {
      this.files := files;
      log := [];
    }

    method Put(name: string, content: string)
      modifies this
      ensures files == old(files)[name := content] && log == old(log) + [files]
    {
      files := files[name := content];
      log := log + [files];
    }

    /** `os.replace`: one step for every reader. */
    method Move(source: string, destination: string)
      requires source in files && source != destination
      modifies this
      ensures files == (old(files) - {source})[destination := old(files)[source]] && log == old(log) + [files]
    {
      files := (files - {source})[destination := files[source]];
      log := log + [files];
    }

    method Unlink(name: string)
      modifies this
      ensures files == old(files) - {name} && log == old(log) + [files]
    {
      files := files - {name};
      log := log + [files];
    }
  }

  // ---------- the ladder ----------

  datatype Try = Lands | Shares | Faults

  /** What the machine does to each step of one publication. */
  datatype Script = Script(makesParent: bool, opens: bool, partial: string, writes: bool, syncs: bool,
                           tries: nat -> Try, draws: nat -> Draw, syncsDirectory: bool, unlinks: bool)

  /** Attempt n is the first that is not a sharing violation, and it lands. */
  predicate LandsAt(tries: nat -> Try, n: nat) {
    tries(n) == Lands && forall m: nat :: m < n ==> tries(m) == Shares
  }

  method Retrying(dir: Directory, source: string, destination: string, tries: nat -> Try, draws: nat -> Draw)
    returns (landed: bool, slept: real)
    requires source in dir.files && source != destination
    modifies dir
    ensures landed <==> exists n :: 0 <= n < 10 && LandsAt(tries, n)
    ensures dir.files == if landed then (old(dir.files) - {source})[destination := old(dir.files)[source]]
                         else old(dir.files)
    ensures dir.log == if landed then old(dir.log) + [dir.files] else old(dir.log)
    ensures 0.0 <= slept < 0.8
  {
    hide LadderWait;
    slept := 0.0;
    var attempt := 0;
    while attempt < ATTEMPTS
      invariant attempt <= ATTEMPTS && (attempt < ATTEMPTS ==> slept == TotalWait(draws, attempt))
      invariant attempt == ATTEMPTS ==> slept == TotalWait(draws, attempt - 1)
      invariant forall m: nat :: m < attempt ==> tries(m) == Shares
      invariant dir.files == old(dir.files) && dir.log == old(dir.log)
    {
      LadderIsShort(draws, attempt);
      match tries(attempt) {
        case Lands =>
          dir.Move(source, destination);
          assert LandsAt(tries, attempt);
          return true, slept;
        case Shares =>
          if attempt + 1 >= ATTEMPTS {
            return false, slept;
          }
          slept := slept + LadderWait(attempt, draws(attempt));
          attempt := attempt + 1;
        case Faults =>
          return false, slept;
      }
    }
    LadderIsShort(draws, ATTEMPTS - 1);
    return false, slept;
  }

  datatype Outcome = Written | NotDurable | Unserializable | Failed

  /** Apart from the temporary, the directory is as it was, or as it was with the whole payload at the target. */
  predicate OldOrNew(now: Files, before: Files, target: string, temporary: string, payload: string) {
    now - {temporary} == before - {temporary} || now - {temporary} == (before - {temporary})[target := payload]
  }

  /** `payload` is nothing when it cannot be spelled in JSON. */
  method WriteJsonAtomically(dir: Directory, target: string, temporary: string, payload: Option<string>, durable: bool,
                             windows: bool, script: Script) returns (outcome: Outcome, slept: real)
    requires target != temporary
    modifies dir
    // no step of it shows any reader anything but the whole old or the whole new
    ensures payload.Some? ==> forall k :: |old(dir.log)| <= k < |dir.log| ==>
              OldOrNew(dir.log[k], old(dir.files), target, temporary, payload.value)
    ensures outcome.Written? || outcome.NotDurable? ==>
              payload.Some? && target in dir.files && dir.files[target] == payload.value
              && dir.files - {temporary} == (old(dir.files) - {temporary})[target := payload.value]
    ensures outcome.Failed? || outcome.Unserializable? ==> dir.files - {temporary} == old(dir.files) - {temporary}
    ensures outcome.Unserializable? <==> payload.None?
    // once published, it is reported as not durable exactly when it was to be and the directory could not be synced
    ensures outcome.Written? || outcome.NotDurable? ==>
              (outcome.NotDurable? <==> durable && !windows && !script.syncsDirectory)
    // the temporary is gone once unlinking works, and after a publication it is gone even if unlinking does not
    ensures payload.Some? && script.makesParent && script.unlinks ==> temporary !in dir.files
    ensures outcome.Written? || outcome.NotDurable? ==> temporary !in dir.files
    ensures payload.None? || !script.makesParent ==> dir.files == old(dir.files) && dir.log == old(dir.log)
    ensures (outcome.Written? || outcome.NotDurable?) <==>
              payload.Some? && script.makesParent && temporary !in old(dir.files) && script.opens && script.writes
              && (durable ==> script.syncs) && exists n :: 0 <= n < 10 && LandsAt(script.tries, n)
    ensures 0.0 <= slept < 0.8
  {
    slept := 0.0;
    if payload.None? {
      return Unserializable, slept;
    }
    if !script.makesParent {
      return Failed, slept;
    }
    outcome, slept := Publish(dir, target, temporary, payload.value, durable, windows, script);
    if script.unlinks {
      dir.Unlink(temporary);
    }
  }

  /** The body of the `try`. */
  method Publish(dir: Directory, target: string, temporary: string, payload: string, durable: bool, windows: bool,
                 script: Script) returns (outcome: Outcome, slept: real)
    requires target != temporary
    modifies dir
    ensures !outcome.Unserializable?
    ensures |dir.log| >= |old(dir.log)| && dir.log[..|old(dir.log)|] == old(dir.log)
    ensures forall k :: |old(dir.log)| <= k < |dir.log| ==>
              OldOrNew(dir.log[k], old(dir.files), target, temporary, payload)
    ensures outcome.Failed? ==> dir.files - {temporary} == old(dir.files) - {temporary}
    ensures !outcome.Failed? ==> dir.files == (old(dir.files) - {temporary})[target := payload]
    ensures !outcome.Failed? ==> (outcome.NotDurable? <==> durable && !windows && !script.syncsDirectory)
    ensures !outcome.Failed? <==>
              temporary !in old(dir.files) && script.opens && script.writes && (durable ==> script.syncs)
              && exists n :: 0 <= n < 10 && LandsAt(script.tries, n)
    ensures 0.0 <= slept < 0.8
  {
    slept := 0.0;
    if temporary in dir.files || !script.opens {
      return Failed, slept;
    }
    dir.Put(temporary, "");
    if !script.writes {
      dir.Put(temporary, script.partial);
      return Failed, slept;
    }
    dir.Put(temporary, payload);
    if durable && !script.syncs {
      return Failed, slept;
    }
    var landed;
    landed, slept := Retrying(dir, temporary, target, script.tries, script.draws);
    if !landed {
      return Failed, slept;
    }
    assert dir.files == (old(dir.files) - {temporary})[target := payload];
    if durable && !windows && !script.syncsDirectory {
      return NotDurable, slept;
    }
    return Written, slept;
  }
}
