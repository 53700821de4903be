/** The command-line front end of the test framework: parsing a roster
    given as a string, and turning the supplied options into a test
    configuration (players/player_10/tools/flexible_runner.py). The JSON
    decoder is a parameter: `loads(s)` is `None` where `json.loads` raises. */
module FlexibleRunner {
  import opened Common
  import opened MonteCarlo
  import opened TestFramework

  // ---------------------------------------------------------------------
  // Characters and trimming
  // ---------------------------------------------------------------------

  /** Whitespace as `str.strip` and the pattern `\s` see it, on ASCII. */
  predicate IsSpace(c: char)
  {
    c == ' ' || 9 <= c as int <= 13 || 28 <= c as int <= 31
  }

  /** The separators of `[\s,]+`. */
  predicate IsSeparator(c: char)
  {
    IsSpace(c) || c == ','
  }

  predicate IsQuote(c: char)
  {
    c == '"' || c == '\''
  }

  predicate IsDigit(c: char)
  {
    '0' <= c <= '9'
  }

  predicate NotSpace(c: char)
  {
    !IsSpace(c)
  }

  predicate NotSeparator(c: char)
  {
    !IsSeparator(c)
  }

  /** `s` without its leading characters satisfying `p`. */
  function TrimStart(s: string, p: char -> bool): (r: string)
    ensures |r| <= |s|
  {
    if s != [] && p(s[0]) then TrimStart(s[1..], p) else s
  }

  /** `s` without its trailing characters satisfying `p`. */
  function TrimEnd(s: string, p: char -> bool): (r: string)
    ensures |r| <= |s|
  {
    if s != [] && p(s[|s| - 1]) then TrimEnd(s[..|s| - 1], p) else s
  }

  /** `s.strip(chars)`: both ends trimmed. */
  function Trim(s: string, p: char -> bool): string
  {
    TrimEnd(TrimStart(s, p), p)
  }

  /** `TrimStart` keeps a suffix of `s`: it drops exactly the longest
      prefix whose characters all satisfy `p`. */
  lemma {:induction false} TrimStartSpec(s: string, p: char -> bool)
    ensures TrimStart(s, p) == s[|s| - |TrimStart(s, p)|..]
    ensures forall k :: 0 <= k < |s| - |TrimStart(s, p)| ==> p(s[k])
    ensures TrimStart(s, p) != [] ==> !p(TrimStart(s, p)[0])
  {
    if s != [] && p(s[0]) {
      TrimStartSpec(s[1..], p);
    }
  }

  /** `TrimEnd` keeps a prefix of `s`: it drops exactly the longest
      suffix whose characters all satisfy `p`. */
  lemma {:induction false} TrimEndSpec(s: string, p: char -> bool)
    ensures TrimEnd(s, p) == s[..|TrimEnd(s, p)|]
    ensures forall k :: |TrimEnd(s, p)| <= k < |s| ==> p(s[k])
    ensures TrimEnd(s, p) != [] ==> !p(TrimEnd(s, p)[|TrimEnd(s, p)| - 1])
  {
    if s != [] && p(s[|s| - 1]) {
      TrimEndSpec(s[..|s| - 1], p);
    }
  }

  /** What `strip` leaves starts and ends with a character it keeps. */
  lemma TrimEnds(s: string, p: char -> bool)
    ensures Trim(s, p) != [] ==> !p(Trim(s, p)[0]) && !p(Trim(s, p)[|Trim(s, p)| - 1])
  {
    TrimStartSpec(s, p);
    TrimEndSpec(TrimStart(s, p), p);
  }

  /** A string whose end characters fail `p` is its own trim. */
  lemma TrimClean(s: string, p: char -> bool)
    requires s != [] && !p(s[0]) && !p(s[|s| - 1])
    ensures Trim(s, p) == s
  {
    assert TrimStart(s, p) == s;
  }

  /** The index of the first character satisfying `p`, or `|s|`. */
  function FirstWhere(s: string, p: char -> bool): (i: nat)
    ensures i <= |s|
    ensures i < |s| ==> p(s[i])
  {
    if s == [] || p(s[0]) then 0 else 1 + FirstWhere(s[1..], p)
  }

  /** No character before `FirstWhere` satisfies `p`. */
  lemma {:induction false} FirstWhereSpec(s: string, p: char -> bool)
    ensures forall k :: 0 <= k < FirstWhere(s, p) ==> !p(s[k])
  {
    if s != [] && !p(s[0]) {
      FirstWhereSpec(s[1..], p);
    }
  }

  /** The first position satisfying `p` is the one before which none does. */
  lemma {:induction false} FirstWhereAt(s: string, p: char -> bool, i: nat)
    requires i <= |s| && forall k :: 0 <= k < i ==> !p(s[k])
    requires i < |s| ==> p(s[i])
    ensures FirstWhere(s, p) == i
  {
    if i > 0 {
      assert !p(s[0]);
      FirstWhereAt(s[1..], p, i - 1);
    }
  }

  // ---------------------------------------------------------------------
  // Splitting on `[\s,]+`
  // ---------------------------------------------------------------------

  /** `re.split(r"[\s,]+", s)`: the pieces between maximal runs of
      separators; a leading or trailing run yields an empty piece. */
  function Split(s: string): (r: seq<string>)
    ensures |r| >= 1
    decreases |s|
  {
    var i := FirstWhere(s, IsSeparator);
    if i == |s| then [s]
    else
      var j := i + FirstWhere(s[i..], NotSeparator);
      [s[..i]] + Split(s[j..])
  }

  function Concat(pieces: seq<string>): string
  {
    if pieces == [] then [] else pieces[0] + Concat(pieces[1..])
  }

  /** The characters of `s` that are not separators, in order. */
  function NonSeparators(s: string): (r: string)
  {
    if s == [] then []
    else if IsSeparator(s[0]) then NonSeparators(s[1..])
    else [s[0]] + NonSeparators(s[1..])
  }

  lemma {:induction false} NonSeparatorsNone(s: string)
    requires forall k :: 0 <= k < |s| ==> !IsSeparator(s[k])
    ensures NonSeparators(s) == s
  {
    if s != [] {
      NonSeparatorsNone(s[1..]);
    }
  }

  /** No piece holds a separator. */
  lemma {:induction false} SplitPieces(s: string)
    ensures forall t, k :: t in Split(s) && 0 <= k < |t| ==> !IsSeparator(t[k])
    decreases |s|
  {
    var i := FirstWhere(s, IsSeparator);
    FirstWhereSpec(s, IsSeparator);
    if i < |s| {
      var j := i + FirstWhere(s[i..], NotSeparator);
      SplitPieces(s[j..]);
      assert Split(s) == [s[..i]] + Split(s[j..]);
    }
  }

  /** Cutting `s` anywhere cuts its non-separator characters there. */
  lemma {:induction false} NonSeparatorsCut(s: string, n: nat)
    requires n <= |s|
    ensures NonSeparators(s) == NonSeparators(s[..n]) + NonSeparators(s[n..])
  {
    if n == 0 {
      assert s[..0] == [] && s[0..] == s;
    } else {
      NonSeparatorsCut(s[1..], n - 1);
      assert s[1..][..n - 1] == s[..n][1..];
      assert s[1..][n - 1..] == s[n..];
      assert s[..n][0] == s[0];
    }
  }

  /** A prefix without separators is kept whole. */
  lemma PrefixKept(s: string, i: nat)
    requires i <= |s|
    requires forall k :: 0 <= k < i ==> !IsSeparator(s[k])
    ensures NonSeparators(s[..i]) == s[..i]
  {
    NonSeparatorsNone(s[..i]);
  }

  /** A run of separators contributes nothing. */
  lemma {:induction false} RunDropped(s: string, i: nat, j: nat)
    requires i <= j <= |s|
    requires forall k :: i <= k < j ==> IsSeparator(s[k])
    ensures NonSeparators(s[i..]) == NonSeparators(s[j..])
    decreases j - i
  {
    if i < j {
      assert s[i..][0] == s[i];
      assert s[i..][1..] == s[i + 1..];
      RunDropped(s, i + 1, j);
    }
  }

  /** Dropping a piece and the run of separators after it. */
  lemma NonSeparatorsSkip(s: string, i: nat, j: nat)
    requires i <= j <= |s|
    requires forall k :: 0 <= k < i ==> !IsSeparator(s[k])
    requires forall k :: i <= k < j ==> IsSeparator(s[k])
    ensures NonSeparators(s) == s[..i] + NonSeparators(s[j..])
  {
    NonSeparatorsCut(s, i);
    PrefixKept(s, i);
    RunDropped(s, i, j);
  }

  /** The first piece of `s` ends at `i`, the next starts at `j`, and the
      characters kept by the split are those of the first piece, then those
      from `j` on. */
  lemma SplitStep(s: string) returns (i: nat, j: nat)
    requires FirstWhere(s, IsSeparator) < |s|
    ensures i < j <= |s|
    ensures Split(s) == [s[..i]] + Split(s[j..])
    ensures NonSeparators(s) == s[..i] + NonSeparators(s[j..])
  {
    i := FirstWhere(s, IsSeparator);
    j := i + FirstWhere(s[i..], NotSeparator);
    assert Split(s) == [s[..i]] + Split(s[j..]);
    PieceKept(s, i, j);
  }

  /** The characters kept from `s` are those before the first separator at
      `i`, then those after the run of separators ending at `j`. */
  lemma PieceKept(s: string, i: nat, j: nat)
    requires i == FirstWhere(s, IsSeparator) < |s|
    requires j == i + FirstWhere(s[i..], NotSeparator)
    ensures NonSeparators(s) == s[..i] + NonSeparators(s[j..])
  {
    assert forall k :: 0 <= k < i ==> !IsSeparator(s[k]) by { FirstWhereSpec(s, IsSeparator); }
    assert forall k :: i <= k < j ==> IsSeparator(s[k]) by {
      FirstWhereSpec(s[i..], NotSeparator);
      assert forall k :: i <= k < j ==> s[k] == s[i..][k - i];
    }
    NonSeparatorsSkip(s, i, j);
  }

  /** The pieces together hold every character of `s` that is not a
      separator, in order. */
  lemma {:induction false} SplitConcat(s: string)
    ensures Concat(Split(s)) == NonSeparators(s)
    decreases |s|
  {
    if FirstWhere(s, IsSeparator) == |s| {
      FirstWhereSpec(s, IsSeparator);
      NonSeparatorsNone(s);
      assert Concat([s]) == s + Concat([]);
    } else {
      var i, j := SplitStep(s);
      var rest := Split(s[j..]);
      assert Concat(rest) == NonSeparators(s[j..]) by { SplitConcat(s[j..]); }
      assert Concat([s[..i]] + rest) == s[..i] + Concat(rest) by {
        assert ([s[..i]] + rest)[1..] == rest;
      }
    }
  }

  // ---------------------------------------------------------------------
  // Integers
  // ---------------------------------------------------------------------

  function DigitValue(c: char): nat
  {
    if IsDigit(c) then (c as int - '0' as int) as nat else 0
  }

  /** The value of a run of decimal digits. */
  function DigitsValue(d: string): nat
  {
    if d == [] then 0 else 10 * DigitsValue(d[..|d| - 1]) + DigitValue(d[|d| - 1])
  }

  predicate AllDigits(d: string)
  {
    forall k :: 0 <= k < |d| ==> IsDigit(d[k])
  }

  /** Digits grouped by single underscores, as `int` accepts them: digits
      and underscores, a digit first and last, and no two underscores in a
      row. */
  predicate Grouped(d: string)
  {
    && d != [] && IsDigit(d[0]) && IsDigit(d[|d| - 1])
    && (forall k :: 0 <= k < |d| ==> IsDigit(d[k]) || d[k] == '_')
    && (forall i, j :: 0 <= i < |d| && 0 <= j < |d| && j == i + 1 ==> d[i] != '_' || d[j] != '_')
  }

  /** The digits without their grouping underscores. */
  function Ungroup(d: string): (r: string)
    ensures |r| <= |d|
  {
    if d == [] then []
    else Ungroup(d[..|d| - 1]) + if d[|d| - 1] == '_' then [] else [d[|d| - 1]]
  }

  /** `int(v)`: surrounding whitespace, an optional sign, then decimal
      digits, possibly grouped by underscores; `None` where Python raises
      `ValueError`. */
  function ParseInt(v: string): Option<int>
  {
    var t := Trim(v, IsSpace);
    if t == [] then None
    else
      var negative := t[0] == '-';
      var digits := if t[0] == '-' || t[0] == '+' then t[1..] else t;
      if !Grouped(digits) then None
      else if negative then Some(-(DigitsValue(Ungroup(digits)) as int))
      else Some(DigitsValue(Ungroup(digits)))
  }

  /** Plain digits are grouped, and have nothing to drop. */
  lemma {:induction false} UngroupDigits(d: string)
    requires AllDigits(d)
    ensures Ungroup(d) == d
  {
    if d != [] {
      UngroupDigits(d[..|d| - 1]);
      assert d[..|d| - 1] + [d[|d| - 1]] == d;
    }
  }

  /** Dropping the underscores of digits and underscores leaves digits, and
      some remain when there was a digit first. */
  lemma {:induction false} UngroupAllDigits(d: string)
    requires forall k :: 0 <= k < |d| ==> IsDigit(d[k]) || d[k] == '_'
    ensures AllDigits(Ungroup(d))
    ensures d != [] && IsDigit(d[0]) ==> Ungroup(d) != []
  {
    if d != [] {
      var front := d[..|d| - 1];
      assert forall k :: 0 <= k < |front| ==> front[k] == d[k];
      UngroupAllDigits(front);
      if |d| > 1 {
        assert front[0] == d[0];
      }
    }
  }

  /** The grouping changes only the text: `int("1_0") == int("10") == 10`. */
  lemma ParseGrouped(d: string)
    requires Grouped(d)
    ensures ParseInt(d) == ParseInt(Ungroup(d)) == Some(DigitsValue(Ungroup(d)))
  {
    var u := Ungroup(d);
    UngroupAllDigits(d);
    UngroupDigits(u);
    assert !IsSpace(d[0]) && !IsSpace(d[|d| - 1]);
    TrimClean(d, IsSpace);
    assert IsDigit(u[0]) && IsDigit(u[|u| - 1]);
    assert !IsSpace(u[0]) && !IsSpace(u[|u| - 1]);
    TrimClean(u, IsSpace);
    assert Grouped(u);
  }

  function DigitChar(d: nat): char
    requires d < 10
  {
    ('0' as int + d) as char
  }

  /** The decimal form of a natural number. */
  function ShowNat(n: nat): (r: string)
    ensures r != [] && AllDigits(r)
  {
    if n < 10 then [DigitChar(n)] else ShowNat(n / 10) + [DigitChar(n % 10)]
  }

  /** `str(n)`. */
  function Show(n: int): string
  {
    if n < 0 then "-" + ShowNat(-n) else ShowNat(n)
  }

  lemma {:induction false} ShowNatValue(n: nat)
    ensures DigitsValue(ShowNat(n)) == n
  {
    if n >= 10 {
      ShowNatValue(n / 10);
      var r := ShowNat(n);
      assert r[..|r| - 1] == ShowNat(n / 10);
    }
  }

  /** `int(str(n)) == n`. */
  lemma ParseShow(n: int)
    ensures ParseInt(Show(n)) == Some(n)
  {
    var m := if n < 0 then -n else n;
    ShowNatValue(m);
    ParseDigits(ShowNat(m), n < 0);
  }

  /** Plain digits, with or without a leading minus sign, parse to their
      value. */
  lemma ParseDigits(d: string, negative: bool)
    requires d != [] && AllDigits(d)
    ensures ParseInt(if negative then "-" + d else d)
      == Some(if negative then -(DigitsValue(d) as int) else DigitsValue(d))
  {
    var s := if negative then "-" + d else d;
    UngroupDigits(d);
    assert Grouped(d);
    assert !IsSpace(s[0]) && !IsSpace(s[|s| - 1]);
    TrimClean(s, IsSpace);
    if negative {
      assert s[1..] == d;
    }
  }

  // ---------------------------------------------------------------------
  // Key/value tokens
  // ---------------------------------------------------------------------

  /** `x.strip().strip('"\'')`. */
  function Clean(x: string): string
  {
    Trim(Trim(x, IsSpace), IsQuote)
  }

  /** A key and a value, cleaned, when both are non-empty and the value is
      an integer. */
  function PairFrom(key: string, value: string): Option<(string, int)>
  {
    var k := Clean(key);
    var v := Clean(value);
    if k == [] || v == [] then None
    else
      match ParseInt(v)
      case None => None
      case Some(n) => Some((k, n))
  }

  /** A key as the cleaning leaves it: non-empty, with no quote at
      either end. */
  predicate CleanKey(k: string)
  {
    k != [] && !IsQuote(k[0]) && !IsQuote(k[|k| - 1])
  }

  /** One token: split at its first `=`, or else at its first `:`; a token
      with neither, or an empty one, gives nothing. */
  function PairOf(token: string): Option<(string, int)>
  {
    if token == [] then None
    else
      var eq := IndexOf(token, '=');
      var colon := IndexOf(token, ':');
      if eq < |token| then PairFrom(token[..eq], token[eq + 1..])
      else if colon < |token| then PairFrom(token[..colon], token[colon + 1..])
      else None
  }

  lemma IndexOfAt(xs: string, x: char, i: nat)
    requires i < |xs| && xs[i] == x && x !in xs[..i]
    ensures IndexOf(xs, x) == i
  {
  }

  /** Every key a token yields is clean. */
  lemma PairOfKey(token: string)
    ensures PairOf(token).Some? ==> CleanKey(PairOf(token).value.0)
  {
    var eq := IndexOf(token, '=');
    var colon := IndexOf(token, ':');
    if eq < |token| {
      TrimEnds(Trim(token[..eq], IsSpace), IsQuote);
    } else if colon < |token| {
      TrimEnds(Trim(token[..colon], IsSpace), IsQuote);
    }
  }

  /** A clean key written `key=value` reads back as that key and value. */
  lemma PairOfShow(key: string, n: int)
    requires key != [] && '=' !in key
    requires !IsSpace(key[0]) && !IsSpace(key[|key| - 1]) && !IsQuote(key[0]) && !IsQuote(key[|key| - 1])
    ensures PairOf(key + "=" + Show(n)) == Some((key, n))
  {
    var s := Show(n);
    var token := key + "=" + s;
    assert |token| == |key| + 1 + |s| && token[|key|] == '=';
    assert token[..|key|] == key by {
      assert forall i :: 0 <= i < |key| ==> token[i] == key[i];
    }
    assert token[|key| + 1..] == s by {
      assert forall i :: 0 <= i < |s| ==> token[|key| + 1 + i] == s[i];
    }
    assert IndexOf(token, '=') == |key| by {
      IndexOfAt(token, '=', |key|);
    }
    assert PairOf(token) == PairFrom(key, s);
    assert Clean(key) == key by {
      TrimClean(key, IsSpace);
      TrimClean(key, IsQuote);
    }
    assert Clean(s) == s by {
      assert !IsSpace(s[0]) && !IsSpace(s[|s| - 1]) && !IsQuote(s[0]) && !IsQuote(s[|s| - 1]);
      TrimClean(s, IsSpace);
      TrimClean(s, IsQuote);
    }
    ParseShow(n);
  }

  function AddPair(out: ODict<string, int>, p: Option<(string, int)>): ODict<string, int>
  {
    match p
    case None => out
    case Some(kv) => Put(out, kv.0, kv.1)
  }

  /** The dictionary the key/value loop builds: `out[k] = int(v)` per
      usable token, in order. */
  function KeyValues(tokens: seq<string>): ODict<string, int>
  {
    if tokens == [] then []
    else AddPair(KeyValues(tokens[..|tokens| - 1]), PairOf(tokens[|tokens| - 1]))
  }

  /** The value the last usable token with key `k` gives. */
  function LastValue(tokens: seq<string>, k: string): Option<int>
  {
    if tokens == [] then None
    else
      var p := PairOf(tokens[|tokens| - 1]);
      if p.Some? && p.value.0 == k then Some(p.value.1) else LastValue(tokens[..|tokens| - 1], k)
  }

  /** A key is present exactly when some token gives it, and its value is
      that of the last such token. */
  lemma {:induction false} KeyValuesLookup(tokens: seq<string>, k: string)
    ensures HasKey(KeyValues(tokens), k) <==> LastValue(tokens, k).Some?
    ensures HasKey(KeyValues(tokens), k) ==> Get(KeyValues(tokens), k) == LastValue(tokens, k).value
  {
    if tokens != [] {
      var prior := tokens[..|tokens| - 1];
      KeyValuesLookup(prior, k);
      var p := PairOf(tokens[|tokens| - 1]);
      if p.Some? {
        PutThenGet(KeyValues(prior), p.value.0, p.value.1, k);
      }
    }
  }

  /** The keys are distinct, non-empty and stripped of quotes. */
  lemma {:induction false} KeyValuesKeys(tokens: seq<string>)
    ensures DistinctKeys(KeyValues(tokens))
    ensures forall i :: 0 <= i < |KeyValues(tokens)| ==> CleanKey(KeyValues(tokens)[i].0)
  {
    if tokens != [] {
      var prior := tokens[..|tokens| - 1];
      KeyValuesKeys(prior);
      var p := PairOf(tokens[|tokens| - 1]);
      if p.Some? {
        PairOfKey(tokens[|tokens| - 1]);
        PutKeepsDistinct(KeyValues(prior), p.value.0, p.value.1);
        PutShape(KeyValues(prior), p.value.0, p.value.1);
      }
    }
  }

  /** Step 3 of `_parse_player_config_string`: split, then one dictionary
      update per usable token. */
  method ParseKeyValues(s: string) returns (out: ODict<string, int>)
    ensures out == KeyValues(Split(s))
  {
    var tokens := Split(s);
    out := [];
    for i := 0 to |tokens|
      invariant out == KeyValues(tokens[..i])
    {
      assert tokens[..i + 1][..i] == tokens[..i];
      var token := tokens[i];
      if token == [] {
        continue;
      }
      var eq := IndexOf(token, '=');
      var colon := IndexOf(token, ':');
      var k: string, v: string;
      if eq < |token| {
        k, v := token[..eq], token[eq + 1..];
      } else if colon < |token| {
        k, v := token[..colon], token[colon + 1..];
      } else {
        continue;
      }
      k := Clean(k);
      v := Clean(v);
      if k == [] || v == [] {
        continue;
      }
      var n := ParseInt(v);
      if n.None? {
        continue;
      }
      out := Put(out, k, n.value);
    }
    assert tokens[..|tokens|] == tokens;
  }

  // ---------------------------------------------------------------------
  // Repairing JSON-ish input
  // ---------------------------------------------------------------------

  function ReplaceQuotes(s: string): (r: string)
    ensures |r| == |s| && '\'' !in r
    ensures forall k :: 0 <= k < |s| ==> r[k] == if s[k] == '\'' then '"' else s[k]
  {
    seq(|s|, k requires 0 <= k < |s| => if s[k] == '\'' then '"' else s[k])
  }

  predicate IsIdentStart(c: char)
  {
    'A' <= c <= 'Z' || 'a' <= c <= 'z' || c == '_'
  }

  predicate IsIdentChar(c: char)
  {
    IsIdentStart(c) || IsDigit(c)
  }

  predicate NotIdentChar(c: char)
  {
    !IsIdentChar(c)
  }

  /** `re.sub(r"([\{\[,]\s*)([A-Za-z_][A-Za-z0-9_]*)\s*:", r'\1"\2":', s)`:
      scanning left to right, a bare identifier key after `{`, `[` or `,`
      is put in double quotes and the space before its colon dropped. */
  function QuoteKeys(s: string): string
    decreases |s|
  {
    if s == [] then []
    else
      match KeyAt(s)
      case Some((start, end, colon)) => s[..start] + "\"" + s[start..end] + "\":" + QuoteKeys(s[colon + 1..])
      case None => [s[0]] + QuoteKeys(s[1..])
  }

  /** Where the pattern matches at the start of `s`: the identifier
      `s[start..end]` and the colon at `colon`. */
  function KeyAt(s: string): (r: Option<(nat, nat, nat)>)
    ensures r.Some? ==> 0 < r.value.0 < r.value.1 <= r.value.2 < |s|
  {
    if s == [] || !(s[0] == '{' || s[0] == '[' || s[0] == ',') then None
    else
      var start := SkipSpaces(s, 1);
      var end := if start < |s| && IsIdentStart(s[start]) then IdentEnd(s, start) else start;
      var colon := SkipSpaces(s, end);
      if end > start && colon < |s| && s[colon] == ':' then Some((start, end, colon)) else None
  }

  /** Where the identifier starting at `start` ends (`[A-Za-z0-9_]*`). */
  function IdentEnd(s: string, start: nat): (r: nat)
    requires start <= |s|
    ensures start <= r <= |s|
  {
    start + FirstWhere(s[start..], NotIdentChar)
  }

  /** The first position from `from` on that is not a space (`\s*`). */
  function SkipSpaces(s: string, from: nat): (r: nat)
    requires from <= |s|
    ensures from <= r <= |s|
  {
    from + FirstWhere(s[from..], NotSpace)
  }

  /** Without `{`, `[` or `,` there is no key to quote. */
  lemma {:induction false} QuoteKeysUnchanged(s: string)
    requires '{' !in s && '[' !in s && ',' !in s
    ensures QuoteKeys(s) == s
  {
    if s != [] {
      assert s[0] in s;
      QuoteKeysUnchanged(s[1..]);
    }
  }

  /** A bare key is quoted: after `{`, `[` or `,` and optional spaces, an
      identifier `s[start..end]` followed by optional spaces and a colon is
      put in double quotes, the spaces before the colon are dropped, and the
      scan resumes after the colon. */
  lemma QuoteKeysQuotes(s: string, start: nat, end: nat, colon: nat)
    requires 0 < start < end <= colon < |s|
    requires s[0] == '{' || s[0] == '[' || s[0] == ','
    requires forall k :: 1 <= k < start ==> IsSpace(s[k])
    requires IsIdentStart(s[start]) && forall k :: start <= k < end ==> IsIdentChar(s[k])
    requires forall k :: end <= k < colon ==> IsSpace(s[k])
    requires s[colon] == ':'
    ensures QuoteKeys(s) == s[..start] + "\"" + s[start..end] + "\":" + QuoteKeys(s[colon + 1..])
  {
    assert KeyAt(s) == Some((start, end, colon)) by {
      assert AllSpaces(s, 1, start) && AllIdentChars(s, start, end) && AllSpaces(s, end, colon);
      KeyAtMatch(s, start, end, colon);
    }
  }

  lemma KeyAtMatch(s: string, start: nat, end: nat, colon: nat)
    requires 0 < start < end <= colon < |s|
    requires s[0] == '{' || s[0] == '[' || s[0] == ','
    requires AllSpaces(s, 1, start)
    requires IsIdentStart(s[start]) && AllIdentChars(s, start, end)
    requires AllSpaces(s, end, colon)
    requires s[colon] == ':'
    ensures KeyAt(s) == Some((start, end, colon))
  {
    assert !IsSpace(s[start]);
    SkipSpacesAt(s, 1, start);
    assert !IsIdentChar(s[end]) by {
      if end < colon {
        assert IsSpace(s[end]);
      }
    }
    assert AllSpaces(s, end, colon);
    IdentEndAt(s, start, end);
    SkipSpacesAt(s, end, colon);
  }

  /** `\s*` from `from` stops at `i` when only spaces come before it and a
      non-space (or the end) at it. */
  predicate AllSpaces(s: string, from: nat, i: nat)
    requires from <= i <= |s|
  {
    forall k :: from <= k < i ==> IsSpace(s[k])
  }

  predicate AllIdentChars(s: string, from: nat, i: nat)
    requires from <= i <= |s|
  {
    forall k :: from <= k < i ==> IsIdentChar(s[k])
  }

  lemma SkipSpacesAt(s: string, from: nat, i: nat)
    requires from <= i <= |s|
    requires AllSpaces(s, from, i)
    requires i < |s| ==> !IsSpace(s[i])
    ensures SkipSpaces(s, from) == i
  {
    var t := s[from..];
    forall k | 0 <= k < i - from ensures !NotSpace(t[k]) {
      assert t[k] == s[from + k];
    }
    FirstWhereAt(t, NotSpace, i - from);
  }

  /** The identifier starting at `start` ends at `end` when every character
      before it is an identifier character and the one at it is not. */
  lemma IdentEndAt(s: string, start: nat, end: nat)
    requires start <= end < |s|
    requires AllIdentChars(s, start, end)
    requires !IsIdentChar(s[end])
    ensures IdentEnd(s, start) == end
  {
    var t := s[start..];
    forall k | 0 <= k < end - start ensures !NotIdentChar(t[k]) {
      assert t[k] == s[start + k];
    }
    FirstWhereAt(t, NotIdentChar, end - start);
  }

  /** A character other than `{`, `[` and `,` is copied as it is. */
  lemma QuoteKeysCopies(s: string)
    requires s != [] && s[0] != '{' && s[0] != '[' && s[0] != ','
    ensures QuoteKeys(s) == [s[0]] + QuoteKeys(s[1..])
  {
    assert KeyAt(s) == None;
  }

  /** The repair pass: single quotes become double quotes, then bare keys
      are quoted. */
  function Repair(s: string): string
  {
    QuoteKeys(ReplaceQuotes(s))
  }

  /** Text without `{`, `[` or `,` is copied as it is before what follows. */
  lemma {:induction false} QuoteKeysPrefix(p: string, t: string)
    requires '{' !in p && '[' !in p && ',' !in p
    ensures QuoteKeys(p + t) == p + QuoteKeys(t)
  {
    if p != [] {
      var pt := p + t;
      var rest := p[1..];
      assert p[0] in p;
      assert pt[0] == p[0] && pt[1..] == rest + t;
      QuoteKeysCopies(pt);
      assert '{' !in rest && '[' !in rest && ',' !in rest by {
        assert forall c :: c in rest ==> c in p;
      }
      QuoteKeysPrefix(rest, t);
      assert [p[0]] + (rest + QuoteKeys(t)) == p + QuoteKeys(t) by {
        assert [p[0]] + rest == p;
        AppendAssoc([p[0]], rest, QuoteKeys(t));
      }
    } else {
      assert p + t == t && p + QuoteKeys(t) == QuoteKeys(t);
    }
  }

  predicate Identifier(k: string)
  {
    k != [] && IsIdentStart(k[0]) && forall i :: 0 <= i < |k| ==> IsIdentChar(k[i])
  }

  /** A value of the JSON-ish form: no brackets, commas or quotes. */
  predicate PlainValue(v: string)
  {
    '{' !in v && '[' !in v && ',' !in v && '\'' !in v
  }

  /** The JSON-ish form `{k1: v1, k2: v2}` of `_parse_player_config_string`'s
      docstring (`{p10: 10, pr: 2}`) is repaired into `{"k1": v1, "k2": v2}`:
      both keys are put in double quotes and nothing else changes. */
  lemma RepairTwoKeys(k1: string, v1: string, k2: string, v2: string)
    requires Identifier(k1) && Identifier(k2) && PlainValue(v1) && PlainValue(v2)
    ensures Repair("{" + k1 + ":" + (" " + v1 + (", " + k2 + ":" + (" " + v2 + "}")))) ==
      "{" + "\"" + k1 + "\":" + (" " + v1 + (", " + "\"" + k2 + "\":" + (" " + v2 + "}")))
  {
    var last := " " + v2 + "}";
    var second := ", " + k2 + ":" + last;
    var mid := " " + v1 + second;
    var first := "{" + k1 + ":" + mid;
    assert ReplaceQuotes(first) == first by {
      IdentifierNoQuote(k1);
      IdentifierNoQuote(k2);
      assert '\'' !in first;
      ReplaceQuotesUnchanged(first);
    }
    assert QuoteKeys(last) == last by {
      QuoteKeysUnchanged(last);
    }
    assert QuoteKeys(second) == ", " + "\"" + k2 + "\":" + last by {
      KeyInText(", ", k2, last);
    }
    assert QuoteKeys(mid) == " " + v1 + QuoteKeys(second) by {
      QuoteKeysPrefix(" " + v1, second);
    }
    assert QuoteKeys(first) == "{" + "\"" + k1 + "\":" + QuoteKeys(mid) by {
      KeyInText("{", k1, mid);
    }
  }

  /** The docstring's own example. */
  lemma RepairExample()
    ensures Repair("{p10: 10, pr: 2}") == "{\"p10\": 10, \"pr\": 2}"
  {
    var k1, v1, k2, v2 := "p10", "10", "pr", "2";
    assert "{" + k1 + ":" + (" " + v1 + (", " + k2 + ":" + (" " + v2 + "}"))) == "{p10: 10, pr: 2}";
    assert "{" + "\"" + k1 + "\":" + (" " + v1 + (", " + "\"" + k2 + "\":" + (" " + v2 + "}"))) ==
      "{\"p10\": 10, \"pr\": 2}";
    assert Identifier(k1) && Identifier(k2) && PlainValue(v1) && PlainValue(v2);
    RepairTwoKeys(k1, v1, k2, v2);
  }

  /** An identifier key right after an opener and before a colon is quoted. */
  lemma KeyInText(opener: string, k: string, rest: string)
    requires opener == "{" || opener == ", "
    requires Identifier(k)
    ensures QuoteKeys(opener + k + ":" + rest) == opener + "\"" + k + "\":" + QuoteKeys(rest)
  {
    var s := opener + k + ":" + rest;
    var start := |opener|;
    var end := start + |k|;
    assert s[..start] == opener && s[start..end] == k && s[end] == ':' && s[end + 1..] == rest;
    QuoteKeysQuotes(s, start, end, end);
  }

  lemma IdentifierNoQuote(k: string)
    requires Identifier(k)
    ensures '\'' !in k
  {
  }

  lemma ReplaceQuotesUnchanged(s: string)
    requires '\'' !in s
    ensures ReplaceQuotes(s) == s
  {
    var r := ReplaceQuotes(s);
    forall k | 0 <= k < |s| ensures r[k] == s[k] {
      assert s[k] in s;
    }
  }

  // ---------------------------------------------------------------------
  // Parsing a roster string
  // ---------------------------------------------------------------------

  /** `_parse_player_config_string`: strict JSON first, then the repaired
      text as JSON, and key/value pairs only when both fail. */
  function ParsePlayerConfig(loads: string -> Option<Roster>, s: string): Roster
  {
    var t := Trim(s, IsSpace);
    if loads(t).Some? then loads(t).value
    else if loads(Repair(t)).Some? then loads(Repair(t)).value
    else KeyValues(Split(t))
  }

  method ParsePlayerConfigString(loads: string -> Option<Roster>, s: string) returns (r: Roster)
    ensures loads(Trim(s, IsSpace)).Some? ==> r == loads(Trim(s, IsSpace)).value
    ensures loads(Trim(s, IsSpace)).None? && loads(Repair(Trim(s, IsSpace))).Some? ==>
      r == loads(Repair(Trim(s, IsSpace))).value
    ensures loads(Trim(s, IsSpace)).None? && loads(Repair(Trim(s, IsSpace))).None? ==>
      r == KeyValues(Split(Trim(s, IsSpace)))
    ensures r == ParsePlayerConfig(loads, s)
  {
    var t := Trim(s, IsSpace);
    var strict := loads(t);
    if strict.Some? {
      return strict.value;
    }
    var repaired := loads(Repair(t));
    if repaired.Some? {
      return repaired.value;
    }
    r := ParseKeyValues(t);
  }

  // ---------------------------------------------------------------------
  // Options to configuration
  // ---------------------------------------------------------------------

  /** The parsed command-line options a custom test is made from. A list
      option not given is empty; an integer option is falsy when absent or
      zero, a string option when absent or empty. */
  datatype Args = Args(
    name: string,
    description: Option<string>,
    altruism: seq<real>,
    tau: seq<real>,
    epsilonFresh: seq<real>,
    epsilonMono: seq<real>,
    minSamples: seq<int>,
    ewma: seq<real>,
    wImportance: seq<real>,
    wCoherence: seq<real>,
    wFreshness: seq<real>,
    wMonotony: seq<real>,
    players: seq<string>,
    simulations: Option<nat>,
    conversationLength: Option<nat>,
    subjects: Option<nat>,
    memorySize: Option<nat>,
    parallel: bool,
    outputDir: Option<string>)

  predicate Given(o: Option<nat>)
  {
    o.Some? && o.value != 0
  }

  /** Each string's parse, in order. */
  function Parses(loads: string -> Option<Roster>, strs: seq<string>): (r: seq<Roster>)
    ensures |r| == |strs|
  {
    seq(|strs|, i requires 0 <= i < |strs| => ParsePlayerConfig(loads, strs[i]))
  }

  /** The non-empty rosters of `rs`, in order. */
  function NonEmpty(rs: seq<Roster>): seq<Roster>
  {
    if rs == [] then []
    else
      var prior := NonEmpty(rs[..|rs| - 1]);
      if rs[|rs| - 1] != [] then prior + [rs[|rs| - 1]] else prior
  }

  /** Only non-empty rosters are kept, and none is kept only when every
      roster is empty. */
  lemma {:induction false} NonEmptySpec(rs: seq<Roster>)
    ensures |NonEmpty(rs)| <= |rs|
    ensures forall r :: r in NonEmpty(rs) ==> r != []
    ensures NonEmpty(rs) == [] <==> forall i :: 0 <= i < |rs| ==> rs[i] == []
  {
    if rs != [] {
      var prior := rs[..|rs| - 1];
      NonEmptySpec(prior);
      assert forall i :: 0 <= i < |prior| ==> prior[i] == rs[i];
    }
  }

  /** The rosters that parse to a non-empty dictionary, in order. */
  function ParsedRosters(loads: string -> Option<Roster>, strs: seq<string>): seq<Roster>
  {
    NonEmpty(Parses(loads, strs))
  }

  /** Every kept roster is non-empty; none is kept only when every string
      parses to the empty dictionary. */
  lemma ParsedRostersSpec(loads: string -> Option<Roster>, strs: seq<string>)
    ensures |ParsedRosters(loads, strs)| <= |strs|
    ensures forall r :: r in ParsedRosters(loads, strs) ==> r != []
    ensures ParsedRosters(loads, strs) == [] <==> forall i :: 0 <= i < |strs| ==> ParsePlayerConfig(loads, strs[i]) == []
  {
    var rs := Parses(loads, strs);
    NonEmptySpec(rs);
    assert forall i :: 0 <= i < |strs| ==> rs[i] == ParsePlayerConfig(loads, strs[i]);
  }

  /** The loop over `--players`: parse each string, keep the non-empty
      results. */
  method CollectRosters(loads: string -> Option<Roster>, strs: seq<string>) returns (configs: seq<Roster>)
    ensures configs == ParsedRosters(loads, strs)
  {
    ghost var parses := Parses(loads, strs);
    configs := [];
    for i := 0 to |strs|
      invariant configs == NonEmpty(parses[..i])
    {
      assert parses[..i + 1][..i] == parses[..i];
      var parsed := ParsePlayerConfigString(loads, strs[i]);
      if parsed != [] {
        configs := configs + [parsed];
      }
    }
    assert parses[..|strs|] == parses;
  }

  /** `if option: builder.update(option)` for a list option. */
  function WhenGiven<T>(given: seq<T>, c: TestConfiguration, update: (TestConfiguration, seq<T>) -> TestConfiguration): TestConfiguration
  {
    if given != [] then update(c, given) else c
  }

  /** `if option: builder.update(option)` for an integer option. */
  function WhenPositive(given: Option<nat>, c: TestConfiguration, update: (TestConfiguration, nat) -> TestConfiguration): TestConfiguration
  {
    if Given(given) then update(c, given.value) else c
  }

  /** The range options, from `--altruism` to `--epsilon-mono`. */
  function WithCoreRanges(c: TestConfiguration, a: Args): TestConfiguration
  {
    WhenGiven(a.epsilonMono,
      WhenGiven(a.epsilonFresh,
        WhenGiven(a.tau,
          WhenGiven(a.altruism, c, WithAltruism),
          WithTau),
        WithEpsilonFresh),
      WithEpsilonMono)
  }

  /** The rosters, when at least one parsed. */
  function WithRosters(c: TestConfiguration, a: Args, rosters: seq<Roster>): TestConfiguration
  {
    if a.players != [] && rosters != [] then WithPlayerConfigs(c, rosters) else c
  }

  /** The simulation sizes. */
  function WithSizes(c: TestConfiguration, a: Args): TestConfiguration
  {
    WhenPositive(a.memorySize,
      WhenPositive(a.subjects,
        WhenPositive(a.conversationLength,
          WhenPositive(a.simulations, c, WithSimulations),
          WithConversationLength),
        WithSubjects),
      WithMemorySize)
  }

  /** The rosters and the simulation sizes. */
  function WithSimulationOptions(c: TestConfiguration, a: Args, rosters: seq<Roster>): TestConfiguration
  {
    WithSizes(WithRosters(c, a, rosters), a)
  }

  /** The output directory, when one is given. */
  function WithOutputOption(c: TestConfiguration, a: Args): TestConfiguration
  {
    if a.outputDir.Some? && a.outputDir.value != [] then WithOutputDir(c, a.outputDir.value) else c
  }

  /** The ranges of the trusted-mean knobs. */
  function WithKnobRanges(c: TestConfiguration, a: Args): TestConfiguration
  {
    WhenGiven(a.ewma, WhenGiven(a.minSamples, c, WithMinSamples), WithEwmaAlpha)
  }

  /** The ranges of the importance and coherence weights. */
  function WithFirstWeights(c: TestConfiguration, a: Args): TestConfiguration
  {
    WhenGiven(a.wCoherence, WhenGiven(a.wImportance, c, WithImportanceWeight), WithCoherenceWeight)
  }

  /** The ranges of the freshness and monotony weights. */
  function WithLastWeights(c: TestConfiguration, a: Args): TestConfiguration
  {
    WhenGiven(a.wMonotony, WhenGiven(a.wFreshness, c, WithFreshnessWeight), WithMonotonyWeight)
  }

  /** The extended ranges and the output directory. */
  function WithExtendedOptions(c: TestConfiguration, a: Args): TestConfiguration
  {
    WithOutputOption(WithLastWeights(WithFirstWeights(WithKnobRanges(c, a), a), a), a)
  }

  /** The configuration the options describe: the builder's defaults, each
      option that was given applied in the order the source applies them. */
  function CustomConfig(loads: string -> Option<Roster>, a: Args): TestConfiguration
  {
    var c := DefaultConfig(a.name, OrDefault(a.description, ""));
    WithExtendedOptions(WithSimulationOptions(WithCoreRanges(c, a), a, ParsedRosters(loads, a.players)), a)
  }

  /** The value a range option leaves: the one given, or the one before. */
  function Override<T>(given: seq<T>, before: seq<T>): seq<T>
  {
    if given != [] then given else before
  }

  /** The four swept ranges of the core grid. */
  function CoreRangesOf(c: TestConfiguration): (seq<real>, seq<real>, seq<real>, seq<real>)
  {
    (c.altruismProbs.values, c.tauMargins.values, c.epsilonFreshValues.values, c.epsilonMonoValues.values)
  }

  /** The six swept ranges of the scoring knobs. */
  function ExtendedRangesOf(c: TestConfiguration): (seq<int>, seq<real>, seq<real>, seq<real>, seq<real>, seq<real>)
  {
    (c.minSamplesValues.values, c.ewmaAlphaValues.values, c.importanceWeights.values,
     c.coherenceWeights.values, c.freshnessWeights.values, c.monotonyWeights.values)
  }

  /** The rosters and the simulation sizes. */
  function SizesOf(c: TestConfiguration): (seq<Roster>, nat, nat, nat, nat)
  {
    (c.playerConfigs, c.numSimulations, c.conversationLength, c.subjects, c.memorySize)
  }

  /** What no option changes. */
  function FixedOf(c: TestConfiguration): (string, string, int, bool, bool)
  {
    (c.name, c.description, c.baseSeed, c.saveResults, c.printProgress)
  }

  /** The size an integer option leaves: the one given when it is non-zero,
      or the one before. */
  function SizeOr(given: Option<nat>, before: nat): nat
  {
    if Given(given) then given.value else before
  }

  lemma CoreRangesFields(c: TestConfiguration, a: Args)
    ensures CoreRangesOf(WithCoreRanges(c, a)) ==
      (Override(a.altruism, c.altruismProbs.values), Override(a.tau, c.tauMargins.values),
       Override(a.epsilonFresh, c.epsilonFreshValues.values), Override(a.epsilonMono, c.epsilonMonoValues.values))
    ensures ExtendedRangesOf(WithCoreRanges(c, a)) == ExtendedRangesOf(c)
    ensures SizesOf(WithCoreRanges(c, a)) == SizesOf(c)
    ensures FixedOf(WithCoreRanges(c, a)) == FixedOf(c) && WithCoreRanges(c, a).outputDir == c.outputDir
  {
    var c1 := WhenGiven(a.altruism, c, WithAltruism);
    assert c1.altruismProbs.values == Override(a.altruism, c.altruismProbs.values);
    assert c1.(altruismProbs := c.altruismProbs) == c;
    var c2 := WhenGiven(a.tau, c1, WithTau);
    assert c2.tauMargins.values == Override(a.tau, c.tauMargins.values);
    assert c2.(tauMargins := c1.tauMargins) == c1;
    var c3 := WhenGiven(a.epsilonFresh, c2, WithEpsilonFresh);
    assert c3.epsilonFreshValues.values == Override(a.epsilonFresh, c.epsilonFreshValues.values);
    assert c3.(epsilonFreshValues := c2.epsilonFreshValues) == c2;
    var c4 := WhenGiven(a.epsilonMono, c3, WithEpsilonMono);
    assert c4.epsilonMonoValues.values == Override(a.epsilonMono, c.epsilonMonoValues.values);
    assert c4.(epsilonMonoValues := c3.epsilonMonoValues) == c3;
  }

  lemma SizesFields(c: TestConfiguration, a: Args)
    ensures SizesOf(WithSizes(c, a)) ==
      (c.playerConfigs, SizeOr(a.simulations, c.numSimulations), SizeOr(a.conversationLength, c.conversationLength),
       SizeOr(a.subjects, c.subjects), SizeOr(a.memorySize, c.memorySize))
    ensures CoreRangesOf(WithSizes(c, a)) == CoreRangesOf(c)
    ensures ExtendedRangesOf(WithSizes(c, a)) == ExtendedRangesOf(c)
    ensures FixedOf(WithSizes(c, a)) == FixedOf(c) && WithSizes(c, a).outputDir == c.outputDir
  {
    var c1 := WhenPositive(a.simulations, c, WithSimulations);
    assert c1.numSimulations == SizeOr(a.simulations, c.numSimulations);
    assert c1.(numSimulations := c.numSimulations) == c;
    var c2 := WhenPositive(a.conversationLength, c1, WithConversationLength);
    assert c2.conversationLength == SizeOr(a.conversationLength, c.conversationLength);
    assert c2.(conversationLength := c1.conversationLength) == c1;
    var c3 := WhenPositive(a.subjects, c2, WithSubjects);
    assert c3.subjects == SizeOr(a.subjects, c.subjects);
    assert c3.(subjects := c2.subjects) == c2;
    var c4 := WhenPositive(a.memorySize, c3, WithMemorySize);
    assert c4.memorySize == SizeOr(a.memorySize, c.memorySize);
    assert c4.(memorySize := c3.memorySize) == c3;
  }

  lemma SimulationOptionsFields(c: TestConfiguration, a: Args, rosters: seq<Roster>)
    ensures SizesOf(WithSimulationOptions(c, a, rosters)) ==
      (if a.players != [] && rosters != [] then rosters else c.playerConfigs,
       SizeOr(a.simulations, c.numSimulations), SizeOr(a.conversationLength, c.conversationLength),
       SizeOr(a.subjects, c.subjects), SizeOr(a.memorySize, c.memorySize))
    ensures CoreRangesOf(WithSimulationOptions(c, a, rosters)) == CoreRangesOf(c)
    ensures ExtendedRangesOf(WithSimulationOptions(c, a, rosters)) == ExtendedRangesOf(c)
    ensures FixedOf(WithSimulationOptions(c, a, rosters)) == FixedOf(c)
    ensures WithSimulationOptions(c, a, rosters).outputDir == c.outputDir
  {
    SizesFields(WithRosters(c, a, rosters), a);
  }

  lemma KnobRangesFields(c: TestConfiguration, a: Args)
    ensures WithKnobRanges(c, a).minSamplesValues.values == Override(a.minSamples, c.minSamplesValues.values)
    ensures WithKnobRanges(c, a).ewmaAlphaValues.values == Override(a.ewma, c.ewmaAlphaValues.values)
    ensures var r := WithKnobRanges(c, a);
      && r.importanceWeights == c.importanceWeights && r.coherenceWeights == c.coherenceWeights
      && r.freshnessWeights == c.freshnessWeights && r.monotonyWeights == c.monotonyWeights
    ensures CoreRangesOf(WithKnobRanges(c, a)) == CoreRangesOf(c)
    ensures SizesOf(WithKnobRanges(c, a)) == SizesOf(c)
    ensures FixedOf(WithKnobRanges(c, a)) == FixedOf(c) && WithKnobRanges(c, a).outputDir == c.outputDir
  {
    var c1 := WhenGiven(a.minSamples, c, WithMinSamples);
    assert c1.minSamplesValues.values == Override(a.minSamples, c.minSamplesValues.values);
    assert c1.(minSamplesValues := c.minSamplesValues) == c;
    var c2 := WhenGiven(a.ewma, c1, WithEwmaAlpha);
    assert c2.ewmaAlphaValues.values == Override(a.ewma, c.ewmaAlphaValues.values);
    assert c2.(ewmaAlphaValues := c1.ewmaAlphaValues) == c1;
  }

  lemma FirstWeightsFields(c: TestConfiguration, a: Args)
    ensures WithFirstWeights(c, a).importanceWeights.values == Override(a.wImportance, c.importanceWeights.values)
    ensures WithFirstWeights(c, a).coherenceWeights.values == Override(a.wCoherence, c.coherenceWeights.values)
    ensures var r := WithFirstWeights(c, a);
      && r.minSamplesValues == c.minSamplesValues && r.ewmaAlphaValues == c.ewmaAlphaValues
      && r.freshnessWeights == c.freshnessWeights && r.monotonyWeights == c.monotonyWeights
    ensures CoreRangesOf(WithFirstWeights(c, a)) == CoreRangesOf(c)
    ensures SizesOf(WithFirstWeights(c, a)) == SizesOf(c)
    ensures FixedOf(WithFirstWeights(c, a)) == FixedOf(c) && WithFirstWeights(c, a).outputDir == c.outputDir
  {
    var c1 := WhenGiven(a.wImportance, c, WithImportanceWeight);
    assert c1.importanceWeights.values == Override(a.wImportance, c.importanceWeights.values);
    assert c1.(importanceWeights := c.importanceWeights) == c;
    var c2 := WhenGiven(a.wCoherence, c1, WithCoherenceWeight);
    assert c2.coherenceWeights.values == Override(a.wCoherence, c.coherenceWeights.values);
    assert c2.(coherenceWeights := c1.coherenceWeights) == c1;
  }

  lemma LastWeightsFields(c: TestConfiguration, a: Args)
    ensures WithLastWeights(c, a).freshnessWeights.values == Override(a.wFreshness, c.freshnessWeights.values)
    ensures WithLastWeights(c, a).monotonyWeights.values == Override(a.wMonotony, c.monotonyWeights.values)
    ensures var r := WithLastWeights(c, a);
      && r.minSamplesValues == c.minSamplesValues && r.ewmaAlphaValues == c.ewmaAlphaValues
      && r.importanceWeights == c.importanceWeights && r.coherenceWeights == c.coherenceWeights
    ensures CoreRangesOf(WithLastWeights(c, a)) == CoreRangesOf(c)
    ensures SizesOf(WithLastWeights(c, a)) == SizesOf(c)
    ensures FixedOf(WithLastWeights(c, a)) == FixedOf(c) && WithLastWeights(c, a).outputDir == c.outputDir
  {
    var c1 := WhenGiven(a.wFreshness, c, WithFreshnessWeight);
    assert c1.freshnessWeights.values == Override(a.wFreshness, c.freshnessWeights.values);
    assert c1.(freshnessWeights := c.freshnessWeights) == c;
    var c2 := WhenGiven(a.wMonotony, c1, WithMonotonyWeight);
    assert c2.monotonyWeights.values == Override(a.wMonotony, c.monotonyWeights.values);
    assert c2.(monotonyWeights := c1.monotonyWeights) == c1;
  }

  lemma ExtendedOptionsFields(c: TestConfiguration, a: Args)
    ensures ExtendedRangesOf(WithExtendedOptions(c, a)) ==
      (Override(a.minSamples, c.minSamplesValues.values), Override(a.ewma, c.ewmaAlphaValues.values),
       Override(a.wImportance, c.importanceWeights.values), Override(a.wCoherence, c.coherenceWeights.values),
       Override(a.wFreshness, c.freshnessWeights.values), Override(a.wMonotony, c.monotonyWeights.values))
    ensures CoreRangesOf(WithExtendedOptions(c, a)) == CoreRangesOf(c)
    ensures SizesOf(WithExtendedOptions(c, a)) == SizesOf(c)
    ensures FixedOf(WithExtendedOptions(c, a)) == FixedOf(c)
    ensures WithExtendedOptions(c, a).outputDir ==
      if a.outputDir.Some? && a.outputDir.value != [] then a.outputDir.value else c.outputDir
  {
    KnobRangesFields(c, a);
    FirstWeightsFields(WithKnobRanges(c, a), a);
    LastWeightsFields(WithFirstWeights(WithKnobRanges(c, a), a), a);
  }

  /** Only the options given override the defaults: each range holds the
      values given, or the default range; the rosters are replaced only by
      a non-empty list of parsed rosters; the seed and flags stay. */
  lemma CustomConfigSpec(loads: string -> Option<Roster>, a: Args)
    ensures var c, d := CustomConfig(loads, a), DefaultConfig(a.name, OrDefault(a.description, ""));
      CoreRangesOf(c) ==
        (Override(a.altruism, d.altruismProbs.values), Override(a.tau, d.tauMargins.values),
         Override(a.epsilonFresh, d.epsilonFreshValues.values), Override(a.epsilonMono, d.epsilonMonoValues.values))
    ensures var c, d := CustomConfig(loads, a), DefaultConfig(a.name, OrDefault(a.description, ""));
      ExtendedRangesOf(c) ==
        (Override(a.minSamples, d.minSamplesValues.values), Override(a.ewma, d.ewmaAlphaValues.values),
         Override(a.wImportance, d.importanceWeights.values), Override(a.wCoherence, d.coherenceWeights.values),
         Override(a.wFreshness, d.freshnessWeights.values), Override(a.wMonotony, d.monotonyWeights.values))
    ensures var c, d := CustomConfig(loads, a), DefaultConfig(a.name, OrDefault(a.description, ""));
      SizesOf(c) ==
        (Override(ParsedRosters(loads, a.players), d.playerConfigs),
         SizeOr(a.simulations, d.numSimulations), SizeOr(a.conversationLength, d.conversationLength),
         SizeOr(a.subjects, d.subjects), SizeOr(a.memorySize, d.memorySize))
    ensures var c := CustomConfig(loads, a);
      && c.name == a.name && c.description == OrDefault(a.description, "")
      && c.outputDir == if a.outputDir.Some? && a.outputDir.value != [] then a.outputDir.value
                        else DefaultConfig(a.name, OrDefault(a.description, "")).outputDir
    ensures FixedOf(CustomConfig(loads, a)) == FixedOf(DefaultConfig(a.name, OrDefault(a.description, "")))
  {
    assert a.players == [] ==> ParsedRosters(loads, a.players) == [];
    var d := DefaultConfig(a.name, OrDefault(a.description, ""));
    var c1 := WithCoreRanges(d, a);
    var c2 := WithSimulationOptions(c1, a, ParsedRosters(loads, a.players));
    CoreRangesFields(d, a);
    SimulationOptionsFields(c1, a, ParsedRosters(loads, a.players));
    ExtendedOptionsFields(c2, a);
  }

  /** The builder calls for the range options. */
  method ApplyCoreRanges(b: TestBuilder, a: Args)
    modifies b`config
    ensures b.config == WithCoreRanges(old(b.config), a)
  {
    if a.altruism != [] { var _ := b.AltruismRange(a.altruism); }
    if a.tau != [] { var _ := b.TauRange(a.tau); }
    if a.epsilonFresh != [] { var _ := b.EpsilonFreshRange(a.epsilonFresh); }
    if a.epsilonMono != [] { var _ := b.EpsilonMonoRange(a.epsilonMono); }
  }

  /** The builder calls for the rosters and the simulation sizes. */
  method ApplySimulationOptions(b: TestBuilder, loads: string -> Option<Roster>, a: Args)
    modifies b`config
    ensures b.config == WithSimulationOptions(old(b.config), a, ParsedRosters(loads, a.players))
  {
    if a.players != [] {
      var configs := CollectRosters(loads, a.players);
      if configs != [] { var _ := b.PlayerConfigs(configs); }
    }
    if Given(a.simulations) { var _ := b.Simulations(a.simulations.value); }
    if Given(a.conversationLength) { var _ := b.ConversationLength(a.conversationLength.value); }
    if Given(a.subjects) { var _ := b.Subjects(a.subjects.value); }
    if Given(a.memorySize) { var _ := b.MemorySize(a.memorySize.value); }
  }

  /** The builder calls for the trusted-mean knob ranges. */
  method ApplyKnobRanges(b: TestBuilder, a: Args)
    modifies b`config
    ensures b.config == WithKnobRanges(old(b.config), a)
  {
    if a.minSamples != [] { var _ := b.MinSamplesRange(a.minSamples); }
    if a.ewma != [] { var _ := b.EwmaAlphaRange(a.ewma); }
  }

  /** The builder calls for the four weight ranges. */
  method ApplyWeightRanges(b: TestBuilder, a: Args)
    modifies b`config
    ensures b.config == WithLastWeights(WithFirstWeights(old(b.config), a), a)
  {
    if a.wImportance != [] { var _ := b.ImportanceWeightRange(a.wImportance); }
    if a.wCoherence != [] { var _ := b.CoherenceWeightRange(a.wCoherence); }
    if a.wFreshness != [] { var _ := b.FreshnessWeightRange(a.wFreshness); }
    if a.wMonotony != [] { var _ := b.MonotonyWeightRange(a.wMonotony); }
  }

  /** The builder calls for the extended ranges and the output directory. */
  method ApplyExtendedOptions(b: TestBuilder, a: Args)
    modifies b`config
    ensures b.config == WithExtendedOptions(old(b.config), a)
  {
    ApplyKnobRanges(b, a);
    ApplyWeightRanges(b, a);
    if a.outputDir.Some? && a.outputDir.value != [] { var _ := b.OutputDir(a.outputDir.value); }
  }

  /** `create_custom_test_from_args` as written: with `--parallel` it calls
      `builder.parallel`, which the builder does not define, so the call
      raises; otherwise it builds the configuration the options describe. */
  method CreateCustomTestFromArgsAsWritten(loads: string -> Option<Roster>, a: Args)
    returns (r: Outcome<TestConfiguration>)
    ensures r.Raises? <==> a.parallel
    ensures r.Returns? ==> r.value == CustomConfig(loads, a)
  {
    var b := new TestBuilder(a.name, OrDefault(a.description, ""));
    ApplyCoreRanges(b, a);
    ApplySimulationOptions(b, loads, a);
    if a.parallel {
      return Raises;
    }
    ApplyExtendedOptions(b, a);
    var c := b.Build();
    return Returns(c);
  }

  /** `create_custom_test_from_args` with the parallel options ignored, as
      the configuration has nowhere to keep them: it never raises. */
  method CreateCustomTestFromArgs(loads: string -> Option<Roster>, a: Args) returns (c: TestConfiguration)
    ensures c == CustomConfig(loads, a)
  {
    var b := new TestBuilder(a.name, OrDefault(a.description, ""));
    ApplyCoreRanges(b, a);
    ApplySimulationOptions(b, loads, a);
    ApplyExtendedOptions(b, a);
    c := b.Build();
  }
}
