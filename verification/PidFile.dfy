/** `pid`: a pid file that is overwritten in place, without truncation. Whether a process
    lives is asked of an oracle. */
module PidFile {
  import opened Strings
  import opened Decimal

  function PidValue(text: string): Option<int> {
    ParseInt(text, INT32_LIMIT)
  }

  datatype Outcome = Written | StillLive | Occupied | Unreadable

  /** `PidCreateByPid` on the file's text (`None`: no file). */
  function Create(content: Option<string>, pid: int, alive: int -> bool): (Option<string>, Outcome) {
    match content
    case None => (Some(Itoa(pid)), Written)
    case Some(text) =>
      match PidValue(text)
      case None => (content, Unreadable)
      case Some(was) =>
        if alive(was) then (content, if was == pid then StillLive else Occupied)
        else (Some(Overwrite(text, Itoa(pid))), Written)
  }

  class PidLock {
    var content: Option<string>

    constructor ()
      ensures content == None
    {
      content := None;
    }

    method PidCreateByPid(pid: int, alive: int -> bool) returns (outcome: Outcome)
      modifies this
      ensures (content, outcome) == Create(old(content), pid, alive)
      ensures outcome == Unreadable <==> old(content).Some? && PidValue(old(content).value) == None
      ensures outcome in {StillLive, Occupied} <==>
                old(content).Some? && PidValue(old(content).value).Some? && alive(PidValue(old(content).value).value)
      ensures outcome == StillLive ==> PidValue(old(content).value) == Some(pid)
      ensures outcome == Occupied ==> PidValue(old(content).value) != Some(pid)
      ensures outcome != Written ==> content == old(content)
      ensures old(content) == None ==> outcome == Written && content == Some(Itoa(pid))
    {
      if content.Some? {
        var was := PidValue(content.value);
        if was == None { return Unreadable; }
        if alive(was.value) {
          if was.value != pid { return Occupied; }
          return StillLive;
        }
      } else {
        content := Some("");
      }
      content := Some(Overwrite(content.value, Itoa(pid)));
      assert Overwrite("", Itoa(pid)) == Itoa(pid);
      return Written;
    }
  }

  /** How many more digits `was` has. */
  function Surplus(was: nat, pid: nat): nat {
    if |Digits(pid)| < |Digits(was)| then |Digits(was)| - |Digits(pid)| else 0
  }

  /** What is in the file afterwards, as a number: the surplus digits of the old pid stay. */
  function Leftover(was: nat, pid: nat): nat {
    pid * Pow10(Surplus(was, pid)) + was % Pow10(Surplus(was, pid))
  }

  lemma OverwriteParts(before: string, now: string, d: nat)
    requires d == if |now| < |before| then |before| - |now| else 0
    ensures Overwrite(before, now) == now + before[|before| - d..]
  {
  }

  /** Two runs of digits, the first without a leading zero, are a printed number. */
  lemma PartsPrint(now: string, stay: string)
    requires AllDigits(now) && AllDigits(stay) && now != "" && now[0] != '0'
    ensures now + stay == Digits(Val(now) * Pow10(|stay|) + Val(stay))
  {
    var text := now + stay;
    ValAppend(now, stay);
    assert text[0] == now[0];
    DigitsOfVal(text);
  }

  /** Overwriting a dead pid prints exactly the number `pid * 10^d + was mod 10^d`. */
  lemma OverwritePrints(was: nat, pid: nat)
    requires pid > 0
    ensures Overwrite(Digits(was), Digits(pid)) == Digits(Leftover(was, pid))
  {
    var d, before, now := Surplus(was, pid), Digits(was), Digits(pid);
    OverwriteParts(before, now, d);
    ValDigits(pid);
    LastDigits(was, d);
    FirstDigit(pid);
    PartsPrint(now, before[|before| - d..]);
  }

  /** The pid file is read as a number of 32 bits. */
  lemma PidReads(n: nat)
    ensures PidValue(Digits(n)) == if n < 2147483648 then Some(n) else None
    ensures PidValue("-" + Digits(n)) == if n <= 2147483648 then Some(-(n as int)) else None
  {
    ParsePrinted(n, INT32_LIMIT);
  }

  /** A first pid file reads back as the pid. */
  lemma FirstReads(pid: int, alive: int -> bool)
    requires -2147483648 <= pid < 2147483648
    ensures var (after, outcome) := Create(None, pid, alive);
            outcome == Written && after.Some? && PidValue(after.value) == Some(pid)
  {
    PidReads(if pid < 0 then -pid else pid);
  }

  /** After a dead pid was overwritten, the file reads as that number if it fits 32 bits
      and is unreadable otherwise; it reads back the new pid exactly when the old pid had
      no more digits. */
  lemma OverwriteReads(was: nat, pid: nat, alive: int -> bool)
    requires 0 < pid < INT32_LIMIT && was < INT32_LIMIT && !alive(was)
    ensures var (after, outcome) := Create(Some(Digits(was)), pid, alive);
            && outcome == Written && after.Some?
            && PidValue(after.value) == (if Leftover(was, pid) < INT32_LIMIT then Some(Leftover(was, pid)) else None)
            && (PidValue(after.value) == Some(pid) <==> |Digits(was)| <= |Digits(pid)|)
  {
    PidReads(was);
    OverwritePrints(was, pid);
    PidReads(Leftover(was, pid));
    LeftoverIsPid(was, pid);
  }

  lemma LeftoverIsPid(was: nat, pid: nat)
    requires pid > 0
    ensures Leftover(was, pid) == pid <==> |Digits(was)| <= |Digits(pid)|
  {
    var d := Surplus(was, pid);
    if d > 0 {
      MulLess(pid, Pow10(d));
    } else {
      assert Pow10(d) == 1;
    }
  }

  // ----- whole runs -----

  datatype Attempt = Attempt(pid: int, alive: int -> bool)

  function Run(content: Option<string>, attempts: seq<Attempt>): Option<string>
    decreases |attempts|
  {
    if attempts == [] then content
    else Run(Create(content, attempts[0].pid, attempts[0].alive).0, attempts[1..])
  }

  /** Over any run with positive pids the file always holds the plain decimal text of some
      number (so the law above applies to each overwrite), and never gets shorter. */
  lemma {:induction false} RunKeepsDecimal(was: nat, attempts: seq<Attempt>) returns (now: nat)
    requires forall i | 0 <= i < |attempts| :: attempts[i].pid > 0
    ensures Run(Some(Digits(was)), attempts) == Some(Digits(now))
    ensures |Digits(now)| >= |Digits(was)|
    decreases |attempts|
  {
    now := was;
    if attempts != [] {
      var a := attempts[0];
      OverwritePrints(was, a.pid);
      var next := if Create(Some(Digits(was)), a.pid, a.alive).1 == Written then Leftover(was, a.pid) else was;
      now := RunKeepsDecimal(next, attempts[1..]);
    }
  }

  /** Whatever the text and the pids, an existing file never gets shorter. */
  lemma {:induction false} RunNeverShrinks(text: string, attempts: seq<Attempt>)
    ensures var after := Run(Some(text), attempts);
            after.Some? && |after.value| >= |text|
    decreases |attempts|
  {
    if attempts != [] {
      RunNeverShrinks(Create(Some(text), attempts[0].pid, attempts[0].alive).0.value, attempts[1..]);
    }
  }
}
