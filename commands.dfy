/**
 * The /undo [n] and /redo [n] commands. The count is the first argument as read by
 * Integer.parseInt, 1 when there is no argument or it does not parse, and raised to 1 when
 * below 1; a player's history is then undone or redone that many steps, and any other
 * sender is told that the command is for players only. Both always report the command
 * as handled.
 */
module Commands {
  import opened Wrappers
  import opened JavaInts
  import opened Players

  // ---------------------------------------------------------------------------
  // Integer.parseInt(s) in radix 10, over ASCII digits.

  predicate IsDigit(c: char) {
    '0' <= c <= '9'
  }

  predicate AllDigits(s: string) {
    forall i | 0 <= i < |s| :: IsDigit(s[i])
  }

  /** The value of a string of decimal digits, most significant first. */
  function DigitsValue(s: string): nat
    requires AllDigits(s)
    decreases |s|
  {
    if |s| == 0 then 0 else 10 * DigitsValue(s[..|s| - 1]) + (s[|s| - 1] as int - '0' as int)
  }

  /** What parseInt accepts syntactically: an optional '-' or '+' followed by at least one digit. */
  predicate Numeral(s: string) {
    && |s| > 0
    && var digits := if s[0] == '-' || s[0] == '+' then s[1..] else s;
    && |digits| > 0
    && AllDigits(digits)
  }

  /**
   * Integer.parseInt: the signed value of a numeral, or empty where parseInt throws
   * NumberFormatException (not a numeral, or outside the range of an int).
   */
  function ParseInt(s: string): (r: Option<int>)
    ensures r.Some? ==> Numeral(s) && IsInt(r.value)
    ensures r.Some? && s[0] == '-' ==> r.value <= 0
    ensures r.Some? && s[0] != '-' ==> r.value >= 0
  {
    if |s| == 0 then None
    else
      var signed := s[0] == '-' || s[0] == '+';
      var digits := if signed then s[1..] else s;
      if |digits| == 0 || !AllDigits(digits) then None
      else
        var value: int := DigitsValue(digits);
        var v := if s[0] == '-' then -value else value;
        if IsInt(v) then Some(v) else None
  }

  /** The decimal digit of d. */
  function Digit(d: nat): (c: char)
    requires d < 10
    ensures IsDigit(c) && c as int - '0' as int == d
  {
    ('0' as int + d) as char
  }

  /** The decimal numeral of n, without leading zeros. */
  function ShowNat(n: nat): (s: string)
    ensures |s| > 0 && AllDigits(s)
    decreases n
  {
    if n < 10 then [Digit(n)] else ShowNat(n / 10) + [Digit(n % 10)]
  }

  /** Integer.toString: the numeral of k, with a '-' when negative. */
  function Show(k: int): string {
    if k < 0 then "-" + ShowNat(-k) else ShowNat(k)
  }

  /** The digits of ShowNat(n) read back as n. */
  lemma {:induction false} ShowNatValue(n: nat)
    ensures DigitsValue(ShowNat(n)) == n
    decreases n
  {
    if n >= 10 {
      ShowNatValue(n / 10);
      var s := ShowNat(n);
      assert s[..|s| - 1] == ShowNat(n / 10);
    }
  }

  /** Reading back the numeral of k gives k when it is an int, and fails (overflow) otherwise. */
  lemma ParseShow(k: int)
    ensures ParseInt(Show(k)) == if IsInt(k) then Some(k) else None
  {
    var m: nat := if k < 0 then -k else k;
    ShowNatValue(m);
    var s := Show(k);
    if k < 0 {
      assert s[1..] == ShowNat(m);
    }
  }

  /** An explicit '+' is accepted. */
  lemma ParsePlus(n: nat)
    ensures ParseInt("+" + ShowNat(n)) == if n <= IntMax then Some(n) else None
  {
    ShowNatValue(n);
    var s := "+" + ShowNat(n);
    assert s[1..] == ShowNat(n);
  }

  /** Leading zeros do not change the value of a string of digits. */
  lemma {:induction false} LeadingZero(s: string)
    requires AllDigits(s)
    ensures AllDigits("0" + s) && DigitsValue("0" + s) == DigitsValue(s)
    decreases |s|
  {
    if |s| > 0 {
      var t := "0" + s;
      LeadingZero(s[..|s| - 1]);
      assert t[..|t| - 1] == "0" + s[..|s| - 1];
    }
  }

  // ---------------------------------------------------------------------------
  // The count.

  /** The n of /undo and /redo: the parsed first argument, 1 when absent or unparseable, at least 1. */
  function Count(args: seq<string>): (n: int)
    ensures n >= 1
    ensures |args| == 0 ==> n == 1
    ensures |args| > 0 && ParseInt(args[0]).Some? && ParseInt(args[0]).value >= 1 ==> n == ParseInt(args[0]).value
    ensures |args| > 0 && (ParseInt(args[0]).None? || ParseInt(args[0]).value < 1) ==> n == 1
  {
    var n := if |args| > 0 && ParseInt(args[0]).Some? then ParseInt(args[0]).value else 1;
    if n < 1 then 1 else n
  }

  /** Arguments after the first are ignored. */
  lemma CountIgnoresRest(first: string, rest: seq<string>)
    ensures Count([first] + rest) == Count([first])
  {
    assert ([first] + rest)[0] == first;
  }

  /** `/undo k` with the numeral of k counts k steps when k is a positive int, and 1 step otherwise. */
  lemma CountOfNumeral(k: int)
    ensures Count([Show(k)]) == if 1 <= k <= IntMax then k else 1
  {
    ParseShow(k);
  }

  // ---------------------------------------------------------------------------
  // The commands.

  /** A sender that is not a player (the console), with the messages sent to it. */
  class Console {
    var sent: seq<Message>

    constructor ()
      ensures sent == []
    {
      sent := [];
    }

    method SendMessage(m: Message)
      modifies this
      ensures sent == old(sent) + [m]
    {
      sent := sent + [m];
    }
  }

  /** The CommandSender of a command: a player or not. */
  datatype Sender = FromConsole(console: Console) | FromPlayer(player: AbstractPlayer) {
    /** The object a command may change. */
    function Target(): set<object> {
      if FromPlayer? then {player} else {console}
    }
  }

  /**
   * UndoCommand.execute: a non-player is sent `playerOnly`; a player's history is undone
   * Count(args) steps and the count undone is reported to them. Handled either way.
   */
  method Undo(sender: Sender, args: seq<string>, playerOnly: string) returns (handled: bool)
    modifies sender.Target()
    ensures handled
    ensures sender.FromConsole? ==> sender.console.sent == old(sender.console.sent) + [Text(playerOnly)]
    ensures sender.FromPlayer? ==>
      var p := sender.player;
      var (h, c) := p.undo(old(p.history), Count(args));
      && p.history == h
      && p.sent == old(p.sent) + [Formatted(p.undoMessage, c)]
      && p.pending == old(p.pending) && p.processing == old(p.processing)
  {
    if !sender.FromPlayer? {
      sender.console.SendMessage(Text(playerOnly));
      return true;
    }
    var n := 1;
    if |args| > 0 {
      var parsed := ParseInt(args[0]);
      if parsed.Some? {
        n := parsed.value;
      }
      if n < 1 {
        n := 1;
      }
    }
    sender.player.UndoHistory(n);
    return true;
  }

  /**
   * RedoCommand.execute: the count is read first; a player's history is redone that many
   * steps, a non-player is sent `red` followed by "Sorry, this is a player only command.".
   * Handled either way.
   */
  method Redo(sender: Sender, args: seq<string>, red: string) returns (handled: bool)
    modifies sender.Target()
    ensures handled
    ensures sender.FromConsole? ==>
      sender.console.sent == old(sender.console.sent) + [Text(red + "Sorry, this is a player only command.")]
    ensures sender.FromPlayer? ==>
      var p := sender.player;
      var (h, c) := p.redo(old(p.history), Count(args));
      && p.history == h
      && p.sent == old(p.sent) + [Formatted(p.redoMessage, c)]
      && p.pending == old(p.pending) && p.processing == old(p.processing)
  {
    var n := 1;
    if |args| > 0 {
      var parsed := ParseInt(args[0]);
      if parsed.Some? {
        n := parsed.value;
      }
      if n < 1 {
        n := 1;
      }
    }
    if sender.FromPlayer? {
      sender.player.RedoHistory(n);
      return true;
    }
    sender.console.SendMessage(Text(red + "Sorry, this is a player only command."));
    return true;
  }
}
