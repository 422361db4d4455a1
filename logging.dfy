/**
 * The log sanitiser: a value is turned into a string, cut to a maximum length, stripped
 * of control characters and of ANSI colour/erase sequences.
 */
module Logging {
  import opened Wrappers
  import opened Values

  const TruncationMarker: string := "...[truncated]"
  const Esc: char := '\U{1B}'

  /** The characters of the first pattern: code points 0 to 31 and 127. */
  predicate IsControl(c: char)
  {
    c as int < 32 || c as int == 127
  }

  /** The first `re.sub`: every control character removed. */
  function RemoveControl(s: string): (r: string)
    ensures |r| <= |s|
    ensures forall i :: 0 <= i < |r| ==> !IsControl(r[i])
    decreases |s|
  {
    if |s| == 0 then "" else (if IsControl(s[0]) then "" else [s[0]]) + RemoveControl(s[1..])
  }

  predicate IsAnsiParam(c: char)
  {
    '0' <= c <= '9' || c == ';'
  }

  /** The number of leading `[0-9;]` characters. */
  function ParamRun(s: string): (n: nat)
    ensures n <= |s|
    ensures forall i :: 0 <= i < n ==> IsAnsiParam(s[i])
    ensures n < |s| ==> !IsAnsiParam(s[n])
    decreases |s|
  {
    if |s| > 0 && IsAnsiParam(s[0]) then 1 + ParamRun(s[1..]) else 0
  }

  /** The length of a match of `\x1B\[[0-9;]*[mK]` at the start of `s`, if there is one. */
  function AnsiMatch(s: string): (n: Option<nat>)
    ensures n.Some? ==> 3 <= n.value <= |s| && s[0] == Esc
  {
    if |s| >= 2 && s[0] == Esc && s[1] == '[' then
      var k := 2 + ParamRun(s[2..]);
      if k < |s| && (s[k] == 'm' || s[k] == 'K') then Some(k + 1) else None
    else None
  }

  /** The second `re.sub`: matches removed left to right, without overlap. */
  function RemoveAnsi(s: string): (r: string)
    decreases |s|
  {
    if |s| == 0 then ""
    else match AnsiMatch(s)
      case Some(n) => RemoveAnsi(s[n..])
      case None => [s[0]] + RemoveAnsi(s[1..])
  }

  /** Without an ESC character there is nothing for the ANSI pattern to remove. */
  lemma {:induction false} RemoveAnsiNoEsc(s: string)
    requires Esc !in s
    ensures RemoveAnsi(s) == s
    decreases |s|
  {
    if |s| > 0 {
      assert s[0] != Esc;
      RemoveAnsiNoEsc(s[1..]);
    }
  }

  /** Removing control characters from a string that has none changes nothing. */
  lemma {:induction false} RemoveControlNoOp(s: string)
    requires forall i :: 0 <= i < |s| ==> !IsControl(s[i])
    ensures RemoveControl(s) == s
    decreases |s|
  {
    if |s| > 0 {
      RemoveControlNoOp(s[1..]);
    }
  }

  /** `a` is obtained from `b` by deleting characters. */
  predicate IsSubsequence(a: string, b: string)
    decreases |b|
  {
    if |a| == 0 then true
    else if |b| == 0 then false
    else if a[0] == b[0] then IsSubsequence(a[1..], b[1..])
    else IsSubsequence(a, b[1..])
  }

  /** Removing control characters deletes characters and nothing else. */
  lemma {:induction false} RemoveControlSubsequence(s: string)
    ensures IsSubsequence(RemoveControl(s), s)
    decreases |s|
  {
    if |s| > 0 {
      RemoveControlSubsequence(s[1..]);
      var a := RemoveControl(s);
      if !IsControl(s[0]) {
        assert a[0] == s[0] && a[1..] == RemoveControl(s[1..]);
      } else {
        assert a == RemoveControl(s[1..]);
        if |a| > 0 {
          assert a[0] != s[0];
        }
      }
    }
  }

  /** ESC is a control character, so a string without control characters has none. */
  lemma NoControlNoEsc(s: string)
    requires forall i :: 0 <= i < |s| ==> !IsControl(s[i])
    ensures Esc !in s
  {
    assert IsControl(Esc);
  }

  /** `str(value)`, cut to `maxLength` characters plus the marker when longer. */
  function Truncated(maxLength: nat, s: string): (t: string)
    ensures |s| <= maxLength ==> t == s
    ensures |s| > maxLength ==> t == s[..maxLength] + TruncationMarker
  {
    if |s| > maxLength then s[..maxLength] + TruncationMarker else s
  }

  /** `_sanitize_value` of a filter whose `max_length` is `maxLength`. */
  function SanitizeValue(maxLength: nat, v: Value): (r: string)
    ensures v.Null? ==> r == "None"
    ensures |r| <= maxLength + |TruncationMarker|
    ensures forall i :: 0 <= i < |r| ==> !IsControl(r[i])
    ensures v.Str? && |v.s| <= maxLength ==> |r| <= |v.s|
  {
    if v.Null? then "None"
    else
      var cleaned := RemoveControl(Truncated(maxLength, PyStr(v)));
      NoControlNoEsc(cleaned);
      RemoveAnsiNoEsc(cleaned);
      RemoveAnsi(cleaned)
  }

  /** The output only deletes characters from the truncated text; the ANSI pass never fires. */
  lemma SanitizeIsSubsequence(maxLength: nat, v: Value)
    requires !v.Null?
    ensures IsSubsequence(SanitizeValue(maxLength, v), Truncated(maxLength, PyStr(v)))
    ensures SanitizeValue(maxLength, v) == RemoveControl(Truncated(maxLength, PyStr(v)))
  {
    var cleaned := RemoveControl(Truncated(maxLength, PyStr(v)));
    NoControlNoEsc(cleaned);
    RemoveAnsiNoEsc(cleaned);
    RemoveControlSubsequence(Truncated(maxLength, PyStr(v)));
  }

  /** Sanitising a string that fits is idempotent. */
  lemma SanitizeIdempotent(maxLength: nat, s: string)
    requires |s| <= maxLength
    ensures SanitizeValue(maxLength, Str(SanitizeValue(maxLength, Str(s)))) == SanitizeValue(maxLength, Str(s))
  {
    var once := SanitizeValue(maxLength, Str(s));
    RemoveControlNoOp(once);
    NoControlNoEsc(once);
    RemoveAnsiNoEsc(once);
  }

  /** The filter, configured with the longest message kept whole. */
  class SanitizationFilter {
    const maxLength: nat

    constructor(maxLength: nat)
      ensures this.maxLength == maxLength
    {
      this.maxLength := maxLength;
    }

    /**
     * `filter`: string arguments and the message are sanitised, `getMessage` gains one
     * more sanitising layer, and the record is always kept.
     */
    method Filter(record: LogRecord) returns (keep: bool)
      modifies record
      ensures keep
      ensures |old(record.args)| == 0 ==> record.args == old(record.args)
      ensures |record.args| == |old(record.args)|
      ensures forall i :: 0 <= i < |record.args| ==>
        record.args[i] == if old(record.args)[i].Str? then Str(SanitizeValue(maxLength, old(record.args)[i])) else old(record.args)[i]
      ensures record.msg == Str(SanitizeValue(maxLength, old(record.msg)))
      ensures record.messageLayers == old(record.messageLayers) + [maxLength]
    {
      if |record.args| > 0 {
        var sanitized: seq<Value> := [];
        var i := 0;
        while i < |record.args|
          invariant 0 <= i <= |record.args|
          invariant |sanitized| == i
          invariant forall k :: 0 <= k < i ==>
            sanitized[k] == if record.args[k].Str? then Str(SanitizeValue(maxLength, record.args[k])) else record.args[k]
        {
          var arg := record.args[i];
          sanitized := sanitized + [if arg.Str? then Str(SanitizeValue(maxLength, arg)) else arg];
          i := i + 1;
        }
        record.args := sanitized;
      }
      record.msg := Str(SanitizeValue(maxLength, record.msg));
      record.messageLayers := record.messageLayers + [maxLength];
      keep := true;
    }
  }

  /**
   * The parts of a log record the filter touches. `getMessage` is kept as the list of
   * sanitiser lengths wrapped around the original formatter, innermost first.
   */
  class LogRecord {
    var args: seq<Value>
    var msg: Value
    var messageLayers: seq<nat>

    constructor(args: seq<Value>, msg: Value)
      ensures this.args == args && this.msg == msg && messageLayers == []
    {
      this.args := args;
      this.msg := msg;
      messageLayers := [];
    }
  }

  /** What the wrapped `getMessage` returns for a formatted message `raw`. */
  function WrappedMessage(raw: string, layers: seq<nat>): (r: string)
    ensures |layers| > 0 ==> |r| <= layers[|layers| - 1] + |TruncationMarker|
    ensures |layers| > 0 ==> forall i :: 0 <= i < |r| ==> !IsControl(r[i])
    decreases |layers|
  {
    if |layers| == 0 then raw
    else
      var inner := WrappedMessage(raw, layers[..|layers| - 1]);
      SanitizeValue(layers[|layers| - 1], Str(inner))
  }
}
