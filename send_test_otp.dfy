/**
 * scripts/send_test_otp.js: a command-line check of the WhatsApp set-up.
 * It fills the process environment from `.env.local` with its own small
 * parser, then sends one test message and reports failures through its
 * exit code.
 */
module SendTestOtp {
  import opened Wrappers
  import opened Text
  import opened Orders
  import opened Twilio

  // ---------------------------------------------------------------------------
  // The `.env.local` parser

  /** Drops one trailing carriage return. */
  function DropCarriageReturn(s: string): (r: string)
    ensures r == s || s == r + "\r"
  {
    if s != [] && s[|s| - 1] == '\r' then s[..|s| - 1] else s
  }

  /** `src.split(/\r?\n/)`: split at line feeds, and drop the carriage return before each of them. */
  function SplitLines(src: string): (lines: seq<string>)
    ensures |lines| == |Split(src, '\n')| >= 1
    ensures forall k :: 0 <= k < |lines| ==> '\n' !in lines[k]
    ensures forall k :: 0 <= k < |lines| - 1 ==> Split(src, '\n')[k] == lines[k] || Split(src, '\n')[k] == lines[k] + "\r"
    ensures lines[|lines| - 1] == Split(src, '\n')[|lines| - 1]
  {
    var parts := Split(src, '\n');
    seq(|parts|, k requires 0 <= k < |parts| => if k < |parts| - 1 then DropCarriageReturn(parts[k]) else parts[k])
  }

  /** A character of `Trim(s)` is a character of `s`. */
  lemma TrimChars(s: string, c: char)
    requires c in Trim(s)
    ensures c in s
  {
    var t := TrimStart(s);
    var k :| 0 <= k <= |s| && t == s[k..];
    assert Trim(s) <= t;
  }

  /** A trimmed line the parser skips: blank, a comment, a separator, or without `=`. */
  predicate Skipped(trimmed: string) {
    trimmed == "" || StartsWith(trimmed, "#") || StartsWith(trimmed, "---") || '=' !in trimmed
  }

  /** Key and value of a trimmed line: the trimmed text before the first `=`, and the trimmed rest. */
  function KeyValue(trimmed: string): (kv: (string, string))
    requires '=' in trimmed
    ensures '=' !in kv.0
    ensures NoOuterSpace(kv.0) && NoOuterSpace(kv.1)
  {
    var eq := IndexOf(trimmed, '=');
    var key := Trim(trimmed[..eq]);
    assert '=' !in key by {
      if '=' in key {
        TrimChars(trimmed[..eq], '=');
      }
    }
    TrimmedHasNoOuterSpace(trimmed[..eq]);
    TrimmedHasNoOuterSpace(trimmed[eq + 1..]);
    (key, Trim(trimmed[eq + 1..]))
  }

  /** One line of the file, as the loop reads it. */
  function ParseLine(line: string): (r: Option<(string, string)>)
    ensures r.Some? ==> Trim(line) != "" && !StartsWith(Trim(line), "#") && !StartsWith(Trim(line), "---")
    ensures r.Some? ==> '=' in Trim(line) && '=' !in r.value.0
    ensures r.Some? ==> NoOuterSpace(r.value.0) && NoOuterSpace(r.value.1)
  {
    var trimmed := Trim(line);
    if Skipped(trimmed) then None else Some(KeyValue(trimmed))
  }

  /** With no occurrence in `a`, the first `c` of `a + [c] + b` is the one after `a`. */
  lemma IndexOfAfter(a: string, c: char, b: string)
    requires c !in a
    ensures c in a + [c] + b && IndexOf(a + [c] + b, c) == |a|
  {
    var s := a + [c] + b;
    assert s[|a|] == c;
    assert s[..|a|] == a;
  }

  /** One line applied to the environment: a variable that already holds a non-empty value is left alone. */
  function Apply(env: map<string, string>, line: string): (r: map<string, string>)
    ensures env.Keys <= r.Keys
  {
    match ParseLine(line)
    case None => env
    case Some((key, value)) => if key in env && env[key] != "" then env else env[key := value]
  }

  /** The environment after the first `|lines|` lines. */
  function LoadAll(env: map<string, string>, lines: seq<string>): map<string, string> {
    if lines == [] then env else Apply(LoadAll(env, lines[..|lines| - 1]), lines[|lines| - 1])
  }

  /** A line that parses sets its variable unless that variable already holds a non-empty value. */
  lemma ApplySets(env: map<string, string>, line: string, key: string, value: string)
    requires ParseLine(line) == Some((key, value))
    requires !(key in env && env[key] != "")
    ensures key in Apply(env, line) && Apply(env, line)[key] == value
  {
  }

  /** Loading two runs of lines is loading the first, then the second. */
  lemma {:induction false} LoadAllAppend(env: map<string, string>, a: seq<string>, b: seq<string>)
    ensures LoadAll(env, a + b) == LoadAll(LoadAll(env, a), b)
    decreases |b|
  {
    if b == [] {
      assert a + b == a;
    } else {
      assert (a + b)[..|a + b| - 1] == a + b[..|b| - 1];
      LoadAllAppend(env, a, b[..|b| - 1]);
    }
  }

  /** Loading never removes a variable and never changes one that holds a non-empty value. */
  lemma {:induction false} SetStaysSet(env: map<string, string>, lines: seq<string>, key: string)
    requires key in env && env[key] != ""
    ensures key in LoadAll(env, lines) && LoadAll(env, lines)[key] == env[key]
    decreases |lines|
  {
    if lines != [] {
      SetStaysSet(env, lines[..|lines| - 1], key);
    }
  }

  /**
   * The first line that gives a variable a non-empty value decides it: once
   * the first `i + 1` lines have set it, the later lines change nothing.
   */
  lemma FirstOccurrenceWins(env: map<string, string>, lines: seq<string>, i: nat, key: string)
    requires i < |lines|
    requires key in LoadAll(env, lines[..i + 1]) && LoadAll(env, lines[..i + 1])[key] != ""
    ensures key in LoadAll(env, lines) && LoadAll(env, lines)[key] == LoadAll(env, lines[..i + 1])[key]
  {
    var upto, rest := lines[..i + 1], lines[i + 1..];
    SetStaysSet(LoadAll(env, upto), rest, key);
    LoadAllAppend(env, upto, rest);
    assert upto + rest == lines;
  }

  /** A value may itself hold `=`: only the first `=` of the line separates key and value. */
  lemma ValueKeepsEquals(key: string, value: string)
    requires key != [] && value != []
    requires !IsJsWhitespace(key[0]) && key[0] != '#' && key[0] != '-'
    requires !IsJsWhitespace(value[|value| - 1])
    requires '=' !in key
    ensures ParseLine(key + "=" + value) == Some((Trim(key), Trim(value)))
  {
    var line := key + "=" + value;
    assert line[0] == key[0] && line[|line| - 1] == value[|value| - 1];
    TrimOfTrimmed(line);
    assert line[..1] != "#" && line[..1] != "-";
    assert !Skipped(line) by {
      assert !StartsWith(line, "#") && !StartsWith(line, "---");
      assert line[|key|] == '=';
    }
    IndexOfAfter(key, '=', value);
    assert line[..|key|] == key;
    assert line[|key| + 1..] == value;
    assert KeyValue(line) == (Trim(key), Trim(value));
  }

  /** The process environment the loop writes into. */
  class Environment {
    var vars: map<string, string>

    constructor(vars: map<string, string>)
      ensures this.vars == vars
    {
      this.vars := vars;
    }

    /** `loadDotEnv`: `file` is the text read, or `None` when reading failed (which changes nothing). */
    method LoadDotEnv(file: Option<string>)
      modifies this
      ensures file.None? ==> vars == old(vars)
      ensures file.Some? ==> vars == LoadAll(old(vars), SplitLines(file.value))
    {
      if file.None? {
        return;
      }
      var lines := SplitLines(file.value);
      var i := 0;
      while i < |lines|
        invariant 0 <= i <= |lines|
        invariant vars == LoadAll(old(vars), lines[..i])
      {
        assert lines[..i + 1][..i] == lines[..i];
        vars := Apply(vars, lines[i]);
        i := i + 1;
      }
      assert lines[..i] == lines;
    }
  }

  // ---------------------------------------------------------------------------
  // Sending the test message

  /** The script's own `ensureWhatsAppPrefix`: an empty number stays empty, any other is prefixed like `lib/twilio.ts` does. */
  function LocalPrefix(number: string): (r: string)
    ensures number == "" ==> r == ""
    ensures number != "" ==> r == EnsureWhatsAppPrefix(number)
  {
    if number == "" then number
    else if StartsWith(number, PREFIX) then number
    else PREFIX + number
  }

  function Lookup(env: map<string, string>, name: string): Option<string> {
    if name in env then Some(env[name]) else None
  }

  /** How the script ends: an exit code, or a sent message with its two addresses. */
  datatype ScriptOutcome = Exit(code: int) | Delivered(from: string, to: string)

  /** `arg || defaultTo`. */
  function Recipient(env: map<string, string>, arg: Option<string>): Option<string> {
    if Truthy(arg) then arg else Lookup(env, "SELLER_WHATSAPP_NUMBER")
  }

  /** Both credentials and a recipient are present: the script gets past its two exit-1 checks. */
  predicate Ready(env: map<string, string>, arg: Option<string>) {
    Truthy(Lookup(env, "TWILIO_ACCOUNT_SID")) && Truthy(Lookup(env, "TWILIO_AUTH_TOKEN")) && Truthy(Recipient(env, arg))
  }

  /** `ensureWhatsAppPrefix(whatsappFrom || '')`. */
  function FromNumber(env: map<string, string>): string {
    var sender := Lookup(env, "TWILIO_WHATSAPP_NUMBER");
    LocalPrefix(if Truthy(sender) then sender.value else "")
  }

  /** `ensureWhatsAppPrefix(toRaw.replace(/\s+/g, ''))`. */
  function ToNumber(env: map<string, string>, arg: Option<string>): string
    requires Truthy(Recipient(env, arg))
  {
    LocalPrefix(RemoveWhitespace(Recipient(env, arg).value))
  }

  /**
   * `main`, on the loaded environment, the command-line argument and the
   * outcome of the SDK call.
   */
  function RunScript(env: map<string, string>, arg: Option<string>, api: ApiOutcome): (r: ScriptOutcome)
    ensures r == Exit(1) <==> !Ready(env, arg)
    ensures Ready(env, arg) ==> (r == Exit(2) <==> FromNumber(env) == ToNumber(env, arg))
    ensures Ready(env, arg) ==> (r == Exit(3) <==> FromNumber(env) != ToNumber(env, arg) && api.ApiError?)
    ensures Ready(env, arg) && FromNumber(env) != ToNumber(env, arg) && api.Sent? ==>
      r == Delivered(FromNumber(env), ToNumber(env, arg))
    ensures r.Delivered? ==> api.Sent? && r.from != r.to
    ensures r.Delivered? ==> (r.from == "" || StartsWith(r.from, PREFIX)) && (r.to == "" || StartsWith(r.to, PREFIX))
    ensures r.Exit? ==> r.code in {1, 2, 3}
  {
    if !Truthy(Lookup(env, "TWILIO_ACCOUNT_SID")) || !Truthy(Lookup(env, "TWILIO_AUTH_TOKEN")) then Exit(1)
    else
      var toRaw := Recipient(env, arg);
      if !Truthy(toRaw) then Exit(1)
      else
        var sender := Lookup(env, "TWILIO_WHATSAPP_NUMBER");
        var fromNumber := LocalPrefix(if Truthy(sender) then sender.value else "");
        var toNumber := LocalPrefix(RemoveWhitespace(toRaw.value));
        if fromNumber == toNumber then Exit(2)
        else if api.ApiError? then Exit(3)
        else Delivered(fromNumber, toNumber)
  }

  /**
   * Whitespace in the command-line recipient makes no difference, as long
   * as something other than whitespace is left.
   */
  lemma ArgWhitespace(env: map<string, string>, arg: string, api: ApiOutcome)
    requires RemoveWhitespace(arg) != ""
    ensures RunScript(env, Some(arg), api) == RunScript(env, Some(RemoveWhitespace(arg)), api)
  {
    RemoveWhitespaceIdempotent(arg);
  }

  /**
   * With no sender configured, a recipient made only of spaces passes the
   * recipient check and then stops with exit code 2: both addresses are
   * empty.
   */
  lemma BlankRecipientWithoutSender(env: map<string, string>, api: ApiOutcome)
    requires Truthy(Lookup(env, "TWILIO_ACCOUNT_SID")) && Truthy(Lookup(env, "TWILIO_AUTH_TOKEN"))
    requires !Truthy(Lookup(env, "TWILIO_WHATSAPP_NUMBER"))
    ensures RunScript(env, Some("  "), api) == Exit(2)
  {
    assert RemoveWhitespace("  ") == "" by {
      assert "  "[1..] == " " && " "[1..] == "";
    }
  }

  /** The sender and a recipient that are the same number, up to whitespace in the recipient and the prefix, stop with exit code 2. */
  lemma SameNumberStops(env: map<string, string>, arg: string, api: ApiOutcome)
    requires Truthy(Lookup(env, "TWILIO_ACCOUNT_SID")) && Truthy(Lookup(env, "TWILIO_AUTH_TOKEN"))
    requires arg != "" && Lookup(env, "TWILIO_WHATSAPP_NUMBER") == Some(RemoveWhitespace(arg))
    requires RemoveWhitespace(arg) != ""
    ensures RunScript(env, Some(arg), api) == Exit(2)
  {
  }
}
