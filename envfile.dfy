/**
 * The `.env` credential file as text: its lines, the value a key prefix
 * selects, and the rewrite that stores a new bearer token in it.
 */
module EnvFile {
  import opened Wrappers
  import opened Text

  const ClientIdKey := "DIDA_CLIENT_ID="
  const ClientSecretKey := "DIDA_CLIENT_SECRET="
  const RedirectUriKey := "DIDA_REDIRECT_URI="
  const TokenKey := "DIDA365_TOKEN="

  /** No line can start with two of the three setting keys. */
  lemma {:induction false} KeysExclusive(line: string)
    ensures StartsWith(line, ClientIdKey) ==> !StartsWith(line, ClientSecretKey) && !StartsWith(line, RedirectUriKey)
    ensures StartsWith(line, ClientSecretKey) ==> !StartsWith(line, RedirectUriKey)
  {
    if StartsWith(line, ClientIdKey) {
      assert line[12] == line[..|ClientIdKey|][12] == 'I';
    }
    if StartsWith(line, ClientSecretKey) {
      assert line[12] == line[..|ClientSecretKey|][12] == 'S';
      assert line[5] == line[..|ClientSecretKey|][5] == 'C';
    }
    if StartsWith(line, RedirectUriKey) {
      assert line[5] == line[..|RedirectUriKey|][5] == 'R';
    }
  }

  /** The file's lines, as `content.split('\n')` gives them. */
  function Lines(content: string): (r: seq<string>)
    ensures |r| >= 1
    ensures forall i :: 0 <= i < |r| ==> '\n' !in r[i]
  {
    Split(content, '\n')
  }

  /** The remainder of a line after its key prefix. */
  function ValueAfter(line: string, key: string): string
    requires StartsWith(line, key)
  {
    line[|key|..]
  }

  // ---- lookup by key prefix ----

  /** The value of the last line that starts with `key` (a scan that keeps overwriting). */
  function LastValue(lines: seq<string>, key: string): (r: Option<string>)
    ensures r.Some? ==> exists i :: 0 <= i < |lines| && StartsWith(lines[i], key) && r.value == ValueAfter(lines[i], key)
    decreases |lines|
  {
    if lines == [] then None
    else if StartsWith(lines[|lines| - 1], key) then Some(ValueAfter(lines[|lines| - 1], key))
    else
      var init := lines[..|lines| - 1];
      assert forall i :: 0 <= i < |init| ==> init[i] == lines[i];
      LastValue(init, key)
  }

  /** The value of the first line that starts with `key` (a scan that stops at the first match). */
  function FirstValue(lines: seq<string>, key: string): (r: Option<string>)
    ensures r.Some? ==> exists i :: 0 <= i < |lines| && StartsWith(lines[i], key) && r.value == ValueAfter(lines[i], key)
    decreases |lines|
  {
    if lines == [] then None
    else if StartsWith(lines[0], key) then Some(ValueAfter(lines[0], key))
    else
      var tail := lines[1..];
      assert forall i :: 0 <= i < |tail| ==> tail[i] == lines[i + 1];
      FirstValue(tail, key)
  }

  /** One more step of the overwriting scan: line `i` replaces the value iff it starts with the key. */
  lemma {:induction false} LastValueStep(lines: seq<string>, i: nat, key: string)
    requires i < |lines|
    ensures LastValue(lines[..i + 1], key)
         == if StartsWith(lines[i], key) then Some(ValueAfter(lines[i], key)) else LastValue(lines[..i], key)
  {
    assert lines[..i + 1][..i] == lines[..i];
  }

  /** Line `i` is the last one that starts with `key`. */
  predicate IsLastMatch(lines: seq<string>, key: string, i: nat) {
    i < |lines| && StartsWith(lines[i], key)
    && forall j :: i < j < |lines| ==> !StartsWith(lines[j], key)
  }

  /** Line `i` is the first one that starts with `key`. */
  predicate IsFirstMatch(lines: seq<string>, key: string, i: nat) {
    i < |lines| && StartsWith(lines[i], key)
    && forall j :: 0 <= j < i ==> !StartsWith(lines[j], key)
  }

  /** A key with no line is absent; otherwise the value comes from the last line that has it. */
  lemma {:induction false} LastValueSpec(lines: seq<string>, key: string)
    ensures LastValue(lines, key).None? <==> forall i :: 0 <= i < |lines| ==> !StartsWith(lines[i], key)
    ensures forall i: nat :: IsLastMatch(lines, key, i) ==> LastValue(lines, key) == Some(ValueAfter(lines[i], key))
    decreases |lines|
  {
    if lines != [] {
      var init := lines[..|lines| - 1];
      LastValueSpec(init, key);
      forall i: nat | IsLastMatch(lines, key, i)
        ensures LastValue(lines, key) == Some(ValueAfter(lines[i], key))
      {
        if i < |lines| - 1 {
          assert IsLastMatch(init, key, i);
        }
      }
      if !StartsWith(lines[|lines| - 1], key) {
        assert forall i :: 0 <= i < |init| ==> init[i] == lines[i];
      }
    }
  }

  /** A value found by the last-match lookup comes from the last line that starts with the key. */
  lemma {:induction false} LastValueMatch(lines: seq<string>, key: string)
    requires LastValue(lines, key).Some?
    ensures exists i: nat :: IsLastMatch(lines, key, i) && LastValue(lines, key).value == ValueAfter(lines[i], key)
    decreases |lines|
  {
    var n := |lines| - 1;
    if StartsWith(lines[n], key) {
      assert IsLastMatch(lines, key, n);
    } else {
      var init := lines[..n];
      LastValueMatch(init, key);
      var i: nat :| IsLastMatch(init, key, i) && LastValue(init, key).value == ValueAfter(init[i], key);
      assert lines[i] == init[i];
      assert IsLastMatch(lines, key, i);
    }
  }

  /** A line for `key` later in the file overrides every earlier one. */
  lemma {:induction false} LastValueOverrides(earlier: seq<string>, later: seq<string>, key: string)
    requires exists i :: 0 <= i < |later| && StartsWith(later[i], key)
    ensures LastValue(earlier + later, key) == LastValue(later, key)
    decreases |later|
  {
    var all := earlier + later;
    assert all[..|all| - 1] == earlier + later[..|later| - 1];
    if !StartsWith(later[|later| - 1], key) {
      var i :| 0 <= i < |later| && StartsWith(later[i], key);
      assert later[..|later| - 1][i] == later[i];
      LastValueOverrides(earlier, later[..|later| - 1], key);
    }
  }

  /** The first-match scan finds the value of the first line that has the key. */
  lemma {:induction false} FirstValueSpec(lines: seq<string>, key: string)
    ensures FirstValue(lines, key).None? <==> forall i :: 0 <= i < |lines| ==> !StartsWith(lines[i], key)
    ensures forall i: nat :: IsFirstMatch(lines, key, i) ==> FirstValue(lines, key) == Some(ValueAfter(lines[i], key))
    decreases |lines|
  {
    if lines != [] {
      var tail := lines[1..];
      FirstValueSpec(tail, key);
      forall i: nat | IsFirstMatch(lines, key, i)
        ensures FirstValue(lines, key) == Some(ValueAfter(lines[i], key))
      {
        if i > 0 {
          assert IsFirstMatch(tail, key, i - 1);
        }
      }
      if !StartsWith(lines[0], key) {
        assert forall i :: 1 <= i < |lines| ==> tail[i - 1] == lines[i];
      }
    }
  }

  /** Later lines for the key do not change what the first-match scan finds. */
  lemma {:induction false} FirstValueIgnoresLater(earlier: seq<string>, later: seq<string>, key: string)
    requires exists i :: 0 <= i < |earlier| && StartsWith(earlier[i], key)
    ensures FirstValue(earlier + later, key) == FirstValue(earlier, key)
    decreases |earlier|
  {
    if !StartsWith(earlier[0], key) {
      var i :| 0 <= i < |earlier| && StartsWith(earlier[i], key);
      assert earlier[1..][i - 1] == earlier[i];
      assert (earlier + later)[1..] == earlier[1..] + later;
      FirstValueIgnoresLater(earlier[1..], later, key);
    }
  }

  /** The first-match scan reads the value of a given first matching line. */
  lemma {:induction false} FirstMatchValue(lines: seq<string>, key: string, i: nat)
    requires IsFirstMatch(lines, key, i)
    ensures FirstValue(lines, key) == Some(ValueAfter(lines[i], key))
  {
    FirstValueSpec(lines, key);
  }

  // ---- the token upsert ----

  /** The characters `.` in a JavaScript regular expression does not match. */
  predicate IsLineTerminator(c: char) {
    c == '\n' || c == '\r' || c == '\U{2028}' || c == '\U{2029}'
  }

  /** Where a match of `.*` starting at `k` ends: the first line terminator at or after `k`, or the end. */
  function LineEnd(s: string, k: nat): (j: nat)
    requires k <= |s|
    ensures k <= j <= |s|
    ensures forall i :: k <= i < j ==> !IsLineTerminator(s[i])
    ensures j < |s| ==> IsLineTerminator(s[j])
    decreases |s| - k
  {
    if k == |s| || IsLineTerminator(s[k]) then k else LineEnd(s, k + 1)
  }

  /** The line that stores a token. */
  function TokenLine(token: string): string {
    TokenKey + "Bearer " + token
  }

  /**
   * The rewrite of the file after a successful exchange: the first match of
   * `/DIDA365_TOKEN=.*` is replaced by the new token line; without a match the
   * line is appended after a newline.
   */
  function UpsertToken(content: string, token: string): (r: string)
    ensures Contains(r, TokenLine(token))
    ensures var keep := if IndexOf(content, TokenKey).Some? then IndexOf(content, TokenKey).value else |content|;
      keep <= |r| && r[..keep] == content[..keep]
  {
    match IndexOf(content, TokenKey)
    case Some(i) =>
      var r := content[..i] + TokenLine(token) + content[LineEnd(content, i + |TokenKey|)..];
      assert OccursAt(r, TokenLine(token), i);
      r
    case None =>
      var r := content + "\n" + TokenLine(token);
      assert OccursAt(r, TokenLine(token), |content| + 1);
      r
  }

  /** The replacement covers exactly the first occurrence of the key up to the end of its line. */
  lemma {:induction false} UpsertReplacesFirstOccurrence(content: string, token: string, i: nat, j: nat)
    requires OccursAt(content, TokenKey, i)
    requires forall k: nat :: k < i ==> !OccursAt(content, TokenKey, k)
    requires i + |TokenKey| <= j <= |content|
    requires forall k :: i + |TokenKey| <= k < j ==> !IsLineTerminator(content[k])
    requires j == |content| || IsLineTerminator(content[j])
    ensures UpsertToken(content, token) == content[..i] + TokenLine(token) + content[j..]
  {
    assert Contains(content, TokenKey) by {
      assert i <= |content| && OccursAt(content, TokenKey, i);
    }
    assert IndexOf(content, TokenKey) == Some(i);
    assert LineEnd(content, i + |TokenKey|) == j;
  }

  /** Without the key anywhere in the file, the token line is appended and nothing else changes. */
  lemma {:induction false} UpsertAppendsWhenAbsent(content: string, token: string)
    requires !Contains(content, TokenKey)
    ensures UpsertToken(content, token)[..|content|] == content
    ensures UpsertToken(content, token)[|content|..] == "\n" + TokenLine(token)
  {
    assert IndexOf(content, TokenKey).None?;
    assert UpsertToken(content, token) == content + ("\n" + TokenLine(token));
  }

  // ---- the upsert seen line by line ----

  /** Lines each followed by a newline. */
  function Terminated(lines: seq<string>): string {
    if lines == [] then "" else lines[0] + "\n" + Terminated(lines[1..])
  }

  /** Lines each preceded by a newline. */
  function Led(lines: seq<string>): string {
    if lines == [] then "" else "\n" + lines[0] + Led(lines[1..])
  }

  lemma {:induction false} JoinLed(lines: seq<string>)
    requires |lines| >= 1
    ensures Join(lines, '\n') == lines[0] + Led(lines[1..])
    decreases |lines|
  {
    if |lines| > 1 {
      JoinLed(lines[1..]);
      assert lines[1..][1..] == lines[2..];
    }
  }

  /** A file is the lines before line `m`, line `m`, and the lines after it. */
  lemma {:induction false} JoinAround(lines: seq<string>, m: nat)
    requires m < |lines|
    ensures Join(lines, '\n') == Terminated(lines[..m]) + lines[m] + Led(lines[m + 1..])
    decreases m
  {
    if m == 0 {
      JoinLed(lines);
    } else {
      JoinAround(lines[1..], m - 1);
      assert lines[1..][..m - 1] == lines[1..m];
      assert lines[1..][m - 1] == lines[m] && lines[1..][m..] == lines[m + 1..];
      assert lines[..m][1..] == lines[1..m];
    }
  }

  /** What follows position `k` of the middle part, in a text made of three parts. */
  lemma {:induction false} SliceFrom(a: string, b: string, c: string, k: nat)
    requires k <= |b|
    ensures (a + b + c)[|a| + k..] == b[k..] + c
  {
  }

  lemma {:induction false} Regroup(a: string, b: string, c: string, d: string)
    ensures a + b + (c + d) == a + (b + c) + d
  {
  }

  /** A key without a newline cannot occur across one. */
  lemma {:induction false} OccurrenceAvoidsNewline(s: string, p: string, k: nat, n: nat)
    requires OccursAt(s, p, k) && '\n' !in p
    requires n < |s| && s[n] == '\n'
    ensures n < k || k + |p| <= n
  {
  }

  /** Lines none of which contains the key make a text that does not contain it up to the last newline. */
  lemma {:induction false} TerminatedLacks(lines: seq<string>, p: string)
    requires '\n' !in p && p != ""
    requires forall i :: 0 <= i < |lines| ==> !Contains(lines[i], p)
    ensures !Contains(Terminated(lines), p)
    decreases |lines|
  {
    if lines != [] {
      TerminatedLacks(lines[1..], p);
      var t := Terminated(lines);
      var rest := Terminated(lines[1..]);
      var l := lines[0];
      if k: nat :| k <= |t| && OccursAt(t, p, k) {
        assert t[|l|] == '\n';
        OccurrenceAvoidsNewline(t, p, k, |l|);
        if k + |p| <= |l| {
          assert t[k..k + |p|] == l[k..k + |p|];
          assert OccursAt(l, p, k);
        } else {
          assert t[k..k + |p|] == rest[k - |l| - 1..k - |l| - 1 + |p|];
          assert OccursAt(rest, p, k - |l| - 1);
        }
      }
    }
  }

  /** After text that ends with a newline and lacks the key, no occurrence starts before that text's end. */
  lemma {:induction false} NoOccurrenceBefore(a: string, b: string, p: string, k: nat)
    requires '\n' !in p && !Contains(a, p)
    requires a == [] || a[|a| - 1] == '\n'
    requires k < |a|
    ensures !OccursAt(a + b, p, k)
  {
    if OccursAt(a + b, p, k) {
      OccurrenceAvoidsNewline(a + b, p, k, |a| - 1);
      assert (a + b)[k..k + |p|] == a[k..k + |p|];
      assert OccursAt(a, p, k);
    }
  }

  lemma {:induction false} TerminatedEnd(lines: seq<string>)
    ensures var t := Terminated(lines); t == [] || t[|t| - 1] == '\n'
  {
    if lines != [] {
      TerminatedEnd(lines[1..]);
    }
  }

  /** An occurrence past the end of the first part is an occurrence in the second. */
  lemma {:induction false} OccursInSecond(a: string, b: string, p: string, k: nat)
    requires OccursAt(a + b, p, k) && |a| <= k
    ensures OccursAt(b, p, k - |a|)
  {
    assert (a + b)[k..k + |p|] == b[k - |a|..k - |a| + |p|];
  }

  /** A file is its lines but the last, each followed by a newline, then the last line. */
  lemma {:induction false} JoinLast(lines: seq<string>)
    requires |lines| >= 1
    ensures Join(lines, '\n') == Terminated(lines[..|lines| - 1]) + lines[|lines| - 1]
  {
    JoinAround(lines, |lines| - 1);
    assert lines[|lines|..] == [];
  }

  /** Text that ends with a newline and lacks the key, followed by a piece that lacks it, lacks it. */
  lemma {:induction false} NoKeyAcross(t: string, last: string, p: string)
    requires '\n' !in p && !Contains(t, p) && !Contains(last, p)
    requires t == [] || t[|t| - 1] == '\n'
    ensures !Contains(t + last, p)
  {
    forall k: nat | k <= |t + last| ensures !OccursAt(t + last, p, k) {
      if k < |t| {
        NoOccurrenceBefore(t, last, p, k);
      } else if OccursAt(t + last, p, k) {
        OccursInSecond(t, last, p, k);
      }
    }
  }

  /** A file whose lines all lack the key lacks it. */
  lemma {:induction false} NoKeyInFile(lines: seq<string>, p: string)
    requires |lines| >= 1 && '\n' !in p && p != ""
    requires forall i :: 0 <= i < |lines| ==> !Contains(lines[i], p)
    ensures !Contains(Join(lines, '\n'), p)
  {
    var n := |lines| - 1;
    JoinLast(lines);
    TerminatedLacks(lines[..n], p);
    TerminatedEnd(lines[..n]);
    NoKeyAcross(Terminated(lines[..n]), lines[n], p);
  }

  /** Every piece of a split file lacks the newline, so a file is recovered from its lines. */
  predicate NoNewlines(lines: seq<string>) {
    forall i :: 0 <= i < |lines| ==> '\n' !in lines[i]
  }

  /**
   * Appending, seen line by line: when no line contains the key, the file's
   * lines become the old lines plus the token line.
   */
  lemma {:induction false} UpsertAppendsLine(lines: seq<string>, token: string)
    requires |lines| >= 1 && NoNewlines(lines) && '\n' !in token
    requires forall i :: 0 <= i < |lines| ==> !Contains(lines[i], TokenKey)
    ensures Lines(UpsertToken(Join(lines, '\n'), token)) == lines + [TokenLine(token)]
  {
    NoKeyInFile(lines, TokenKey);
    var s := Join(lines, '\n');
    var both := lines + [TokenLine(token)];
    assert both[..|lines|] == lines;
    JoinAround(both, |lines|);
    JoinAround(lines, |lines| - 1);
    assert lines[..|lines| - 1] == both[..|lines| - 1];
    TerminatedSnoc(lines[..|lines| - 1], lines[|lines| - 1]);
    assert lines[..|lines| - 1] + [lines[|lines| - 1]] == lines;
    assert Join(both, '\n') == s + "\n" + TokenLine(token);
    SplitJoin(both, '\n');
  }

  lemma {:induction false} TerminatedSnoc(lines: seq<string>, l: string)
    ensures Terminated(lines + [l]) == Terminated(lines) + l + "\n"
    decreases |lines|
  {
    if lines != [] {
      assert (lines + [l])[1..] == lines[1..] + [l];
      TerminatedSnoc(lines[1..], l);
    }
  }

  lemma {:induction false} LedStart(lines: seq<string>)
    ensures var l := Led(lines); l == [] || l[0] == '\n'
  {
  }

  /** The first occurrence of the key is where line `x` starts. */
  lemma {:induction false} FirstOccurrenceAtLine(t: string, x: string, after: string)
    requires t == [] || t[|t| - 1] == '\n'
    requires !Contains(t, TokenKey) && StartsWith(x, TokenKey)
    ensures IndexOf(t + x + after, TokenKey) == Some(|t|)
  {
    var s := t + x + after;
    assert s[|t|..|t| + |TokenKey|] == x[..|TokenKey|];
    assert OccursAt(s, TokenKey, |t|);
    forall k: nat | k < |t| ensures !OccursAt(s, TokenKey, k) {
      NoOccurrenceBefore(t, x + after, TokenKey, k);
      assert t + (x + after) == s;
    }
  }

  /** The match of `.*` after the key ends where it ends inside line `x`. */
  lemma {:induction false} LineEndInLine(t: string, x: string, after: string, k: nat)
    requires k <= |x| && '\n' !in x
    requires after == [] || after[0] == '\n'
    ensures LineEnd(t + x + after, |t| + k) == |t| + LineEnd(x, k)
  {
    var s := t + x + after;
    var e := LineEnd(x, k);
    forall i | |t| + k <= i < |t| + e ensures !IsLineTerminator(s[i]) {
      assert s[i] == x[i - |t|];
    }
    if e < |x| {
      assert s[|t| + e] == x[e];
    } else if after != [] {
      assert s[|t| + e] == after[0];
    }
    var j := LineEnd(s, |t| + k);
    assert j == |t| + e;
  }

  /**
   * Replacing inside a text: when the text before line `x` ends with a newline and
   * lacks the key, `x` starts with the key, and a newline or the end follows `x`,
   * the key's line becomes the token line, keeping what follows its first line terminator.
   */
  lemma {:induction false} ReplaceInText(t: string, x: string, after: string, token: string)
    requires t == [] || t[|t| - 1] == '\n'
    requires !Contains(t, TokenKey) && StartsWith(x, TokenKey) && '\n' !in x
    requires after == [] || after[0] == '\n'
    ensures UpsertToken(t + x + after, token)
         == t + (TokenLine(token) + x[LineEnd(x, |TokenKey|)..]) + after
  {
    var s := t + x + after;
    var e := LineEnd(x, |TokenKey|);
    FirstOccurrenceAtLine(t, x, after);
    LineEndInLine(t, x, after, |TokenKey|);
    assert UpsertToken(s, token) == s[..|t|] + TokenLine(token) + s[|t| + e..];
    assert s[..|t|] == t;
    SliceFrom(t, x, after, e);
    Regroup(t, TokenLine(token), x[e..], after);
  }

  /** The token line, with what followed the old value, holds no newline. */
  lemma {:induction false} NewlineFreeLine(token: string, x: string, e: nat)
    requires '\n' !in token && '\n' !in x && e <= |x|
    ensures '\n' !in TokenLine(token) + x[e..]
  {
    assert TokenLine(token) == "DIDA365_TOKEN=Bearer " + token;
    forall i | 0 <= i < |x| - e ensures x[e..][i] != '\n' {
      assert x[e..][i] == x[e + i];
    }
  }

  /** The line with the new token that replaces line `x`. */
  function ReplacedLine(x: string, token: string): string
    requires StartsWith(x, TokenKey)
  {
    TokenLine(token) + x[LineEnd(x, |TokenKey|)..]
  }

  /** The rewritten file is the old one with line `m` replaced. */
  lemma {:induction false} UpsertJoin(lines: seq<string>, m: nat, token: string)
    requires m < |lines| && NoNewlines(lines)
    requires StartsWith(lines[m], TokenKey)
    requires forall i :: 0 <= i < m ==> !Contains(lines[i], TokenKey)
    ensures UpsertToken(Join(lines, '\n'), token) == Join(lines[m := ReplacedLine(lines[m], token)], '\n')
  {
    var t := Terminated(lines[..m]);
    var after := Led(lines[m + 1..]);
    JoinAround(lines, m);
    TerminatedLacks(lines[..m], TokenKey);
    TerminatedEnd(lines[..m]);
    LedStart(lines[m + 1..]);
    ReplaceInText(t, lines[m], after, token);
    var updated := lines[m := ReplacedLine(lines[m], token)];
    JoinAround(updated, m);
    assert updated[..m] == lines[..m] && updated[m + 1..] == lines[m + 1..];
  }

  /**
   * Replacing, seen line by line: when line `m` is the first place the key
   * occurs and the line starts with it, that line becomes the token line
   * (keeping whatever line terminator `\r` and text after it the line had)
   * and every other line is unchanged.
   */
  lemma {:induction false} UpsertReplacesLine(lines: seq<string>, m: nat, token: string)
    requires m < |lines| && NoNewlines(lines) && '\n' !in token
    requires StartsWith(lines[m], TokenKey)
    requires forall i :: 0 <= i < m ==> !Contains(lines[i], TokenKey)
    ensures Lines(UpsertToken(Join(lines, '\n'), token)) == lines[m := ReplacedLine(lines[m], token)]
  {
    UpsertJoin(lines, m, token);
    NewlineFreeLine(token, lines[m], LineEnd(lines[m], |TokenKey|));
    var updated := lines[m := ReplacedLine(lines[m], token)];
    NoNewlinesUpdate(lines, m, ReplacedLine(lines[m], token));
    SplitJoin(updated, '\n');
  }

  lemma {:induction false} NoNewlinesUpdate(lines: seq<string>, m: nat, x: string)
    requires m < |lines| && NoNewlines(lines) && '\n' !in x
    ensures NoNewlines(lines[m := x])
  {
  }

  /** The token line starts with the key and holds `Bearer ` and the token after it. */
  lemma {:induction false} TokenLineValue(token: string)
    ensures StartsWith(TokenLine(token), TokenKey)
    ensures ValueAfter(TokenLine(token), TokenKey) == "Bearer " + token
  {
    assert TokenLine(token) == TokenKey + ("Bearer " + token);
  }

  lemma {:induction false} StartsWithContains(line: string, key: string)
    requires StartsWith(line, key)
    ensures Contains(line, key)
  {
    assert OccursAt(line, key, 0);
  }

  /** No line before `m` can start with the key when none of them contains it. */
  lemma {:induction false} NoEarlierStart(lines: seq<string>, updated: seq<string>, m: nat)
    requires m <= |lines| && m <= |updated| && updated[..m] == lines[..m]
    requires forall i :: 0 <= i < m ==> !Contains(lines[i], TokenKey)
    ensures forall j :: 0 <= j < m ==> !StartsWith(updated[j], TokenKey)
  {
    forall j | 0 <= j < m ensures !StartsWith(updated[j], TokenKey) {
      assert updated[j] == updated[..m][j] == lines[j];
      if StartsWith(lines[j], TokenKey) {
        StartsWithContains(lines[j], TokenKey);
      }
    }
  }

  /** After the replacement, the first-match lookup reads the new token back. */
  lemma {:induction false} TokenReadsBack(lines: seq<string>, m: nat, token: string)
    requires m < |lines| && NoNewlines(lines) && '\n' !in token
    requires StartsWith(lines[m], TokenKey)
    requires forall i :: 0 <= i < m ==> !Contains(lines[i], TokenKey)
    requires LineEnd(lines[m], |TokenKey|) == |lines[m]|
    ensures FirstValue(Lines(UpsertToken(Join(lines, '\n'), token)), TokenKey) == Some("Bearer " + token)
  {
    UpsertReplacesLine(lines, m, token);
    assert ReplacedLine(lines[m], token) == TokenLine(token);
    var updated := lines[m := TokenLine(token)];
    TokenLineValue(token);
    NoEarlierStart(lines, updated, m);
    assert IsFirstMatch(updated, TokenKey, m);
    FirstMatchValue(updated, TokenKey, m);
  }

  /** A line appended after lines that do not start with the key is the first match. */
  lemma {:induction false} AppendedLineFirst(lines: seq<string>, token: string)
    requires forall j :: 0 <= j < |lines| ==> !StartsWith(lines[j], TokenKey)
    ensures FirstValue(lines + [TokenLine(token)], TokenKey) == Some("Bearer " + token)
  {
    var updated := lines + [TokenLine(token)];
    TokenLineValue(token);
    forall j | 0 <= j < |lines| ensures !StartsWith(updated[j], TokenKey) {
      assert updated[j] == lines[j];
    }
    assert IsFirstMatch(updated, TokenKey, |lines|);
    FirstMatchValue(updated, TokenKey, |lines|);
  }

  /** After the append, the first-match lookup reads the new token back. */
  lemma {:induction false} AppendedTokenReadsBack(lines: seq<string>, token: string)
    requires |lines| >= 1 && NoNewlines(lines) && '\n' !in token
    requires forall i :: 0 <= i < |lines| ==> !Contains(lines[i], TokenKey)
    ensures FirstValue(Lines(UpsertToken(Join(lines, '\n'), token)), TokenKey) == Some("Bearer " + token)
  {
    assert Lines(UpsertToken(Join(lines, '\n'), token)) == lines + [TokenLine(token)] by {
      UpsertAppendsLine(lines, token);
    }
    assert forall j :: 0 <= j < |lines| ==> !StartsWith(lines[j], TokenKey) by {
      NoEarlierStart(lines, lines, |lines|);
    }
    AppendedLineFirst(lines, token);
  }
}
