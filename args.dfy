/** Command-line scanning. The four process-wide flags of the program are a
    `Flags` value returned by the scan instead of global mutable state. */
module Args {

  datatype Flags = Flags(trace: bool, slowMode: bool, manual: bool, logging: bool)

  /** The flags before any argument is read (all statics start false). */
  const NoFlags := Flags(false, false, false, false)

  /** One command-line argument as the operating system hands it over: text,
      or something that is not valid Unicode, which the argument iterator
      refuses by panicking when it reaches it. */
  datatype Arg = Arg(text: string) | NotUnicode

  /** How the scan ends: it read every argument, it met a help argument and
      returned None, or the argument iterator panicked. */
  datatype ScanOutcome = Proceed | Help | Panic

  predicate IsHelp(arg: string)
  {
    arg == "-h" || arg == "--help"
  }

  /** The arguments the scan reacts to; everything else is skipped. */
  predicate IsRecognised(arg: string)
  {
    arg in {"-t", "--trace", "-s", "--slow-mode", "-m", "--manual", "-l", "--log", "-h", "--help"}
  }

  /** An argument at which the scan ends: a help argument or one the
      iterator cannot hand over. */
  predicate EndsScan(a: Arg)
  {
    a.NotUnicode? || IsHelp(a.text)
  }

  /** Index of the first argument that ends the scan, or `|args|` when there
      is none. */
  function FirstStop(args: seq<Arg>): (k: nat)
    ensures k <= |args|
    ensures forall i :: 0 <= i < k ==> !EndsScan(args[i])
    ensures k < |args| ==> EndsScan(args[k])
  {
    if args == [] then 0
    else if EndsScan(args[0]) then 0
    else 1 + FirstStop(args[1..])
  }

  /** How a scan of `args` ends, read off the argument it stops at. */
  function Outcome(args: seq<Arg>): ScanOutcome
  {
    var k := FirstStop(args);
    if k == |args| then Proceed
    else if args[k].NotUnicode? then Panic
    else Help
  }

  /** Some argument of `args` is the short or the long form of a flag. */
  predicate Mentions(args: seq<Arg>, short: string, long: string)
  {
    exists i :: 0 <= i < |args| && (args[i] == Arg(short) || args[i] == Arg(long))
  }

  /** The flags set by reading all of `seen`, help arguments aside. */
  function FlagsOf(seen: seq<Arg>): Flags
  {
    Flags(Mentions(seen, "-t", "--trace"),
          Mentions(seen, "-s", "--slow-mode"),
          Mentions(seen, "-m", "--manual"),
          Mentions(seen, "-l", "--log"))
  }

  /** The flags the scan leaves set: each one is on iff one of its forms
      occurs before the argument that ends the scan. */
  function FlagsBefore(args: seq<Arg>): Flags
  {
    FlagsOf(args[..FirstStop(args)])
  }

  /** Scans the arguments left to right (the first one is the program name,
      as with `env::args`). The scan proceeds iff no argument is a help
      argument or invalid; it reports help iff a help argument comes before
      every invalid one, and a panic iff an invalid argument comes before
      every help argument. `flags` is the state of the four flags when the
      scan ended, which a panic leaves as it found them. */
  method ReadArgs(args: seq<Arg>) returns (flags: Flags, outcome: ScanOutcome)
    ensures outcome == Proceed <==> forall i :: 0 <= i < |args| ==> !EndsScan(args[i])
    ensures outcome == Help <==>
              exists i :: 0 <= i < |args| && args[i].Arg? && IsHelp(args[i].text)
                          && forall j :: 0 <= j < i ==> args[j].Arg?
    ensures outcome == Panic <==>
              exists i :: 0 <= i < |args| && args[i].NotUnicode?
                          && forall j :: 0 <= j < i ==> !EndsScan(args[j])
    ensures outcome == Outcome(args)
    ensures flags == FlagsBefore(args)
  {
    flags := NoFlags;
    var i := 0;
    while i < |args|
      invariant i <= FirstStop(args)
      invariant flags == FlagsOf(args[..i])
    {
      var a := args[i];
      if a.NotUnicode? {
        OutcomeCases(args);
        return flags, Panic;
      }
      var arg := a.text;
      assert args[..i + 1] == args[..i] + [a];
      MentionsSnoc(args[..i], a, "-t", "--trace");
      MentionsSnoc(args[..i], a, "-s", "--slow-mode");
      MentionsSnoc(args[..i], a, "-m", "--manual");
      MentionsSnoc(args[..i], a, "-l", "--log");
      if arg == "-t" || arg == "--trace" {
        flags := flags.(trace := true);
      } else if arg == "-s" || arg == "--slow-mode" {
        flags := flags.(slowMode := true);
      } else if arg == "-m" || arg == "--manual" {
        flags := flags.(manual := true);
      } else if arg == "-l" || arg == "--log" {
        flags := flags.(logging := true);
      } else if arg == "-h" || arg == "--help" {
        OutcomeCases(args);
        return flags, Help;
      }
      i := i + 1;
    }
    OutcomeCases(args);
    outcome := Proceed;
  }

  /** The scan proceeds iff no argument ends it; it reports help iff a help
      argument comes before every invalid one, and a panic iff an invalid
      argument comes before every help argument. */
  lemma OutcomeCases(args: seq<Arg>)
    ensures Outcome(args) == Proceed <==> forall i :: 0 <= i < |args| ==> !EndsScan(args[i])
    ensures Outcome(args) == Help <==>
              exists i :: 0 <= i < |args| && args[i].Arg? && IsHelp(args[i].text)
                          && forall j :: 0 <= j < i ==> args[j].Arg?
    ensures Outcome(args) == Panic <==>
              exists i :: 0 <= i < |args| && args[i].NotUnicode?
                          && forall j :: 0 <= j < i ==> !EndsScan(args[j])
  {
  }

  /** Reading one more argument turns a flag on iff it is one of its forms. */
  lemma MentionsSnoc(seen: seq<Arg>, a: Arg, short: string, long: string)
    ensures Mentions(seen + [a], short, long) <==> Mentions(seen, short, long) || a == Arg(short) || a == Arg(long)
  {
    if Mentions(seen, short, long) {
      var j :| 0 <= j < |seen| && (seen[j] == Arg(short) || seen[j] == Arg(long));
      assert (seen + [a])[j] == seen[j];
    }
    assert (seen + [a])[|seen|] == a;
  }

  /** Inserting a valid argument the scan does not recognise, anywhere,
      changes neither the resulting flags nor how the scan ends. */
  lemma UnrecognisedArgumentIgnored(args: seq<Arg>, i: nat, a: string)
    requires i <= |args| && !IsRecognised(a)
    ensures var args' := args[..i] + [Arg(a)] + args[i..];
      FlagsBefore(args') == FlagsBefore(args) && Outcome(args') == Outcome(args)
  {
    var args' := args[..i] + [Arg(a)] + args[i..];
    var k := FirstStop(args);
    FirstStopAfterInsert(args, i, a);
    if i <= k {
      assert args'[..k + 1] == args[..k][..i] + [Arg(a)] + args[..k][i..];
      MentionsAfterInsert(args[..k], i, Arg(a), "-t", "--trace");
      MentionsAfterInsert(args[..k], i, Arg(a), "-s", "--slow-mode");
      MentionsAfterInsert(args[..k], i, Arg(a), "-m", "--manual");
      MentionsAfterInsert(args[..k], i, Arg(a), "-l", "--log");
      if k < |args| {
        assert args'[k + 1] == args[k];
      }
    } else {
      assert args'[..k] == args[..k];
      assert args'[k] == args[k];
    }
  }

  /** FirstStop moves by one when an unrecognised argument lands before it. */
  lemma {:induction false} FirstStopAfterInsert(args: seq<Arg>, i: nat, a: string)
    requires i <= |args| && !IsRecognised(a)
    ensures FirstStop(args[..i] + [Arg(a)] + args[i..]) == if i <= FirstStop(args) then FirstStop(args) + 1 else FirstStop(args)
  {
    var args' := args[..i] + [Arg(a)] + args[i..];
    if i == 0 {
      assert args'[1..] == args;
    } else {
      assert args'[0] == args[0];
      if !EndsScan(args[0]) {
        FirstStopAfterInsert(args[1..], i - 1, a);
        assert args'[1..] == args[1..][..i - 1] + [Arg(a)] + args[1..][i - 1..];
      }
    }
  }

  /** Mentions over a sequence with one other argument inserted. */
  lemma MentionsAfterInsert(seen: seq<Arg>, i: nat, a: Arg, short: string, long: string)
    requires i <= |seen| && a != Arg(short) && a != Arg(long)
    ensures Mentions(seen[..i] + [a] + seen[i..], short, long) == Mentions(seen, short, long)
  {
    var seen' := seen[..i] + [a] + seen[i..];
    if Mentions(seen, short, long) {
      var j :| 0 <= j < |seen| && (seen[j] == Arg(short) || seen[j] == Arg(long));
      assert seen'[if j < i then j else j + 1] == seen[j];
    }
    if Mentions(seen', short, long) {
      var j :| 0 <= j < |seen'| && (seen'[j] == Arg(short) || seen'[j] == Arg(long));
      assert j != i;
      assert seen[if j < i then j else j - 1] == seen'[j];
    }
  }
}
