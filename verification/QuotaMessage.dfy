/**
 * The rate-limit message: limits.py prints it as one line of text, api.py
 * reads it back into the fields of the JSON answer and its headers.
 */
module QuotaMessage {
  import opened Strings

  /** A value of the parsed answer: an `int`, or a `str` left as it is. */
  datatype Value = Number(n: nat) | Text(s: string)

  // ---------------------------------------------------------------------
  // Characters
  // ---------------------------------------------------------------------

  predicate SpaceFree(s: string) {
    forall i :: 0 <= i < |s| ==> !IsSpace(s[i])
  }

  /** The shape of the field names. */
  predicate IsName(s: string) {
    s != "" && forall i :: 0 <= i < |s| ==> 'a' <= s[i] <= 'z' || s[i] == '_'
  }

  lemma NamesAreSpaceFree(s: string)
    requires IsName(s)
    ensures SpaceFree(s) && '=' !in s
  {
  }

  predicate AllDigits(s: string) {
    s != "" && forall i :: 0 <= i < |s| ==> IsDigit(s[i])
  }

  // ---------------------------------------------------------------------
  // Numbers
  // ---------------------------------------------------------------------

  function Digit(d: nat): (c: char)
    requires d < 10
    ensures IsDigit(c) && DigitValue(c) == d
  {
    '0' + d as char
  }

  function DigitValue(c: char): (d: nat)
    requires IsDigit(c)
    ensures d < 10
  {
    (c - '0') as nat
  }

  function PrintNat(n: nat): (s: string)
    ensures AllDigits(s)
  {
    if n < 10 then [Digit(n)] else PrintNat(n / 10) + [Digit(n % 10)]
  }

  function Print(n: int): (s: string) {
    if n < 0 then "-" + PrintNat(-n) else PrintNat(n)
  }

  function Read(s: string): (n: nat)
    requires forall i :: 0 <= i < |s| ==> IsDigit(s[i])
  {
    if s == "" then 0 else 10 * Read(s[..|s| - 1]) + DigitValue(s[|s| - 1])
  }

  lemma {:induction false} ReadInvertsPrint(n: nat)
    ensures Read(PrintNat(n)) == n
  {
    if n < 10 {
      assert [Digit(n)][..0] == "";
    } else {
      ReadInvertsPrint(n / 10);
      var s := PrintNat(n / 10) + [Digit(n % 10)];
      assert s[..|s| - 1] == PrintNat(n / 10);
    }
  }

  /** Printing gives the digits back exactly when they have no leading zero. */
  lemma {:induction false} PrintInvertsReadIff(s: string)
    requires AllDigits(s)
    ensures PrintNat(Read(s)) == s <==> s[0] != '0' || |s| == 1
    ensures s[0] != '0' ==> Read(s) > 0
  {
    var d := DigitValue(s[|s| - 1]);
    assert Digit(d) == s[|s| - 1];
    if |s| == 1 {
      assert s[..0] == "";
      assert s == [s[0]];
    } else {
      var front := s[..|s| - 1];
      PrintInvertsReadIff(front);
      assert front[0] == s[0];
      assert s == front + [s[|s| - 1]];
      if Read(front) == 0 {
        assert |PrintNat(Read(s))| == 1;
      } else {
        assert Read(s) / 10 == Read(front) && Read(s) % 10 == d;
        assert PrintNat(Read(s)) == PrintNat(Read(front)) + [s[|s| - 1]];
        if front == "0" {
          assert front[..0] == "";
        }
      }
    }
  }

  // ---------------------------------------------------------------------
  // Words
  // ---------------------------------------------------------------------

  /** Where the word at the start of `s` ends. */
  function WordEnd(s: string): (i: nat)
    ensures i <= |s| && SpaceFree(s[..i])
    ensures i < |s| ==> IsSpace(s[i])
  {
    if s == "" || IsSpace(s[0]) then 0
    else
      var i := 1 + WordEnd(s[1..]);
      assert forall k :: 0 < k < i ==> s[k] == s[1..][k - 1];
      i
  }

  function Words(s: string): (words: seq<string>)
    decreases |s|
  {
    if s == "" then []
    else if IsSpace(s[0]) then Words(s[1..])
    else [s[..WordEnd(s)]] + Words(s[WordEnd(s)..])
  }

  lemma {:induction false} WordEndBeforeSpace(a: string, sp: char, b: string)
    requires IsSpace(sp)
    ensures WordEnd(a + [sp] + b) == WordEnd(a)
  {
    if a != "" && !IsSpace(a[0]) {
      assert (a + [sp] + b)[1..] == a[1..] + [sp] + b;
      WordEndBeforeSpace(a[1..], sp, b);
    }
  }

  /** A space separates: the words are those before it and those after it. */
  lemma {:induction false} WordsSplitAtSpace(a: string, sp: char, b: string)
    requires IsSpace(sp)
    ensures Words(a + [sp] + b) == Words(a) + Words(b)
    decreases |a|
  {
    var s := a + [sp] + b;
    if a == "" {
      assert s[1..] == b;
    } else if IsSpace(a[0]) {
      assert s[1..] == a[1..] + [sp] + b;
      WordsSplitAtSpace(a[1..], sp, b);
    } else {
      var i := WordEnd(a);
      WordEndBeforeSpace(a, sp, b);
      assert s[..i] == a[..i] && s[i..] == a[i..] + [sp] + b;
      WordsSplitAtSpace(a[i..], sp, b);
    }
  }

  lemma {:induction false} WordsAreSpaceFree(s: string, i: nat)
    requires i < |Words(s)|
    ensures SpaceFree(Words(s)[i])
    decreases |s|
  {
    if IsSpace(s[0]) {
      WordsAreSpaceFree(s[1..], i);
    } else if 0 < i {
      WordsAreSpaceFree(s[WordEnd(s)..], i - 1);
    }
  }

  lemma OneWord(w: string)
    requires w != "" && SpaceFree(w)
    ensures Words(w) == [w]
  {
    assert WordEnd(w) == |w|;
    assert w[..|w|] == w && w[|w|..] == "";
  }

  // ---------------------------------------------------------------------
  // Printing
  // ---------------------------------------------------------------------

  function AddField(msg: string, key: string, n: int): (r: string) {
    msg + " " + (key + "=" + Print(n))
  }

  function FormatQuotaMessage(tier: string, limit: int, remaining: int, retryAfter: int): (msg: string)
  {
    AddField(AddField(AddField("rate_limited" + " " + ("tier" + "=" + tier),
                               "limit", limit), "remaining", remaining), "retry_after", retryAfter)
  }

  // ---------------------------------------------------------------------
  // Parsing
  // ---------------------------------------------------------------------

  /** Where the first equals sign stands, or the length without one. */
  function FirstEquals(token: string): (i: nat)
    ensures i <= |token|
    ensures i < |token| ==> token[i] == '='
    ensures forall k :: 0 <= k < i ==> token[k] != '='
  {
    if token == "" || token[0] == '=' then 0
    else
      var i := 1 + FirstEquals(token[1..]);
      assert forall k :: 0 < k < i ==> token[k] == token[1..][k - 1];
      i
  }

  function ReadValue(v: string): (r: Value) {
    if AllDigits(v) then Number(Read(v)) else Text(v)
  }

  function Assign(parts: map<string, Value>, token: string): (r: map<string, Value>) {
    var i := FirstEquals(token);
    if i < |token| then parts[token[..i] := ReadValue(token[i + 1..])] else parts
  }

  const START: map<string, Value> := map["error" := Text("rate_limited")]

  /** The fields assigned by the first `n` words. */
  function Parts(words: seq<string>, n: nat): (parts: map<string, Value>)
    requires n <= |words|
  {
    if n == 0 then START else Assign(Parts(words, n - 1), words[n - 1])
  }

  function PartsOf(msg: string): (parts: map<string, Value>) {
    Parts(Words(msg), |Words(msg)|)
  }

  function Header(parts: map<string, Value>, key: string, name: string): (h: map<string, string>) {
    if key in parts && parts[key].Number? then map[name := Print(parts[key].n)] else map[]
  }

  function HeadersOf(parts: map<string, Value>): (headers: map<string, string>) {
    Header(parts, "retry_after", "Retry-After")
    + Header(parts, "limit", "X-RateLimit-Limit")
    + Header(parts, "remaining", "X-RateLimit-Remaining")
  }

  method ParseQuotaMessage(msg: string) returns (parts: map<string, Value>, headers: map<string, string>)
    ensures parts == PartsOf(msg)
    ensures headers == HeadersOf(parts)
  {
    parts := START;
    var words := Words(msg);
    for n := 0 to |words|
      invariant parts == Parts(words, n)
    {
      var token := words[n];
      assert Parts(words, n + 1) == Assign(parts, token);
      var i := FirstEquals(token);
      if i < |token| {
        var k, v := token[..i], token[i + 1..];
        parts := parts[k := if AllDigits(v) then Number(Read(v)) else Text(v)];
      }
    }
    headers := map[];
    AddHeader(headers, parts, "retry_after", "Retry-After");
    if "retry_after" in parts && parts["retry_after"].Number? {
      headers := headers["Retry-After" := Print(parts["retry_after"].n)];
    }
    assert headers == Header(parts, "retry_after", "Retry-After");
    AddHeader(headers, parts, "limit", "X-RateLimit-Limit");
    if "limit" in parts && parts["limit"].Number? {
      headers := headers["X-RateLimit-Limit" := Print(parts["limit"].n)];
    }
    AddHeader(headers, parts, "remaining", "X-RateLimit-Remaining");
    if "remaining" in parts && parts["remaining"].Number? {
      headers := headers["X-RateLimit-Remaining" := Print(parts["remaining"].n)];
    }
  }

  lemma AddHeader(headers: map<string, string>, parts: map<string, Value>, key: string, name: string)
    ensures headers + Header(parts, key, name)
            == if key in parts && parts[key].Number? then headers[name := Print(parts[key].n)] else headers
  {
  }

  /** The printed line, written out as it is in the source. */
  lemma FormatWrittenOut(tier: string, limit: int, remaining: int, retryAfter: int)
    ensures FormatQuotaMessage(tier, limit, remaining, retryAfter)
            == "rate_limited tier=" + tier + " limit=" + Print(limit)
               + " remaining=" + Print(remaining) + " retry_after=" + Print(retryAfter)
  {
    TierWrittenOut(tier);
    FieldsWrittenOut("rate_limited tier=" + tier, limit, remaining, retryAfter);
  }

  lemma TierWrittenOut(tier: string)
    ensures "rate_limited" + " " + ("tier" + "=" + tier) == "rate_limited tier=" + tier
  {
    Associate("rate_limited", " ", "tier", "=", tier);
    assert "rate_limited" + " " + "tier" + "=" == "rate_limited tier=";
  }

  lemma FieldsWrittenOut(msg: string, limit: int, remaining: int, retryAfter: int)
    ensures AddField(AddField(AddField(msg, "limit", limit), "remaining", remaining), "retry_after", retryAfter)
            == msg + " limit=" + Print(limit) + " remaining=" + Print(remaining) + " retry_after=" + Print(retryAfter)
  {
    FieldWrittenOut(msg, "limit", limit, " limit=");
    FieldWrittenOut(AddField(msg, "limit", limit), "remaining", remaining, " remaining=");
    FieldWrittenOut(AddField(AddField(msg, "limit", limit), "remaining", remaining),
                    "retry_after", retryAfter, " retry_after=");
  }

  lemma FieldWrittenOut(msg: string, key: string, n: int, prefix: string)
    requires prefix == " " + key + "="
    ensures AddField(msg, key, n) == msg + prefix + Print(n)
  {
    Associate(msg, " ", key, "=", Print(n));
  }

  lemma Associate(a: string, b: string, c: string, d: string, e: string)
    ensures a + b + (c + d + e) == a + (b + c + d) + e == (a + b + c + d) + e
  {
  }

  // ---------------------------------------------------------------------
  // Reading back what was printed
  // ---------------------------------------------------------------------

  lemma AssignKeyValue(parts: map<string, Value>, k: string, v: string)
    requires '=' !in k
    ensures Assign(parts, k + "=" + v) == parts[k := ReadValue(v)]
  {
    var token := k + "=" + v;
    assert token[|k|] == '=';
    var i := FirstEquals(token);
    forall j | 0 <= j < |k| ensures token[j] != '=' {
      assert token[j] == k[j];
    }
    assert i == |k|;
    assert token[..i] == k && token[i + 1..] == v;
  }

  /** What a printed number is read as: a negative one stays text, because of
      its sign. */
  function Field(n: int): (r: Value) {
    if n < 0 then Text(Print(n)) else Number(n)
  }

  lemma PrintedIsRead(n: int)
    ensures ReadValue(Print(n)) == Field(n)
    ensures Print(n) != "" && SpaceFree(Print(n))
  {
    if n < 0 {
      assert Print(n)[0] == '-';
      assert forall i :: 0 < i < |Print(n)| ==> Print(n)[i] == PrintNat(-n)[i - 1];
    } else {
      ReadInvertsPrint(n);
    }
  }

  lemma {:induction false} PartsStep(words: seq<string>, w: string)
    ensures Parts(words + [w], |words| + 1) == Assign(Parts(words, |words|), w)
  {
    PartsOfPrefix(words, [w], |words|);
  }

  lemma {:induction false} PartsOfPrefix(a: seq<string>, b: seq<string>, n: nat)
    requires n <= |a|
    ensures Parts(a + b, n) == Parts(a, n)
  {
    if 0 < n {
      PartsOfPrefix(a, b, n - 1);
    }
  }

  /** Appending a word ` key=value` to any message assigns that one field. */
  lemma LastAssignment(msg: string, key: string, v: string)
    requires IsName(key) && SpaceFree(v)
    ensures PartsOf(msg + " " + (key + "=" + v)) == PartsOf(msg)[key := ReadValue(v)]
  {
    var w := key + "=" + v;
    NamesAreSpaceFree(key);
    assert SpaceFree(w);
    WordsSplitAtSpace(msg, ' ', w);
    OneWord(w);
    PartsStep(Words(msg), w);
    AssignKeyValue(PartsOf(msg), key, v);
  }

  lemma LastField(msg: string, key: string, n: int)
    requires IsName(key)
    ensures PartsOf(AddField(msg, key, n)) == PartsOf(msg)[key := Field(n)]
  {
    PrintedIsRead(n);
    LastAssignment(msg, key, Print(n));
  }

  /** The last three fields of a message hold whatever stands before them. */
  lemma LastThreeFields(msg: string, k1: string, n1: int, k2: string, n2: int, k3: string, n3: int)
    requires IsName(k1) && IsName(k2) && IsName(k3)
    ensures PartsOf(AddField(AddField(AddField(msg, k1, n1), k2, n2), k3, n3))
            == PartsOf(msg)[k1 := Field(n1)][k2 := Field(n2)][k3 := Field(n3)]
  {
    LastField(msg, k1, n1);
    LastField(AddField(msg, k1, n1), k2, n2);
    LastField(AddField(AddField(msg, k1, n1), k2, n2), k3, n3);
  }

  lemma FormattedParts(tier: string, limit: int, remaining: int, retryAfter: int)
    ensures PartsOf(FormatQuotaMessage(tier, limit, remaining, retryAfter))
            == PartsOf("rate_limited" + " " + ("tier" + "=" + tier))
                 ["limit" := Field(limit)]["remaining" := Field(remaining)]["retry_after" := Field(retryAfter)]
  {
    LastThreeFields("rate_limited" + " " + ("tier" + "=" + tier), "limit", limit, "remaining", remaining,
                    "retry_after", retryAfter);
  }

  lemma FieldsDiffer()
    ensures |"tier"| < |"limit"| < |"remaining"| < |"retry_after"|
  {
  }

  lemma HeaderOfField(parts: map<string, Value>, key: string, name: string, n: int)
    requires key in parts && parts[key] == Field(n)
    ensures Header(parts, key, name) == if n < 0 then map[] else map[name := Print(n)]
  {
  }

  /** Every number comes back, and as a header exactly when it is not negative. */
  lemma NumbersComeBack(tier: string, limit: int, remaining: int, retryAfter: int)
    ensures var parts := PartsOf(FormatQuotaMessage(tier, limit, remaining, retryAfter));
            && "limit" in parts && parts["limit"] == Field(limit)
            && "remaining" in parts && parts["remaining"] == Field(remaining)
            && "retry_after" in parts && parts["retry_after"] == Field(retryAfter)
            && HeadersOf(parts)
               == (if retryAfter < 0 then map[] else map["Retry-After" := Print(retryAfter)])
                  + (if limit < 0 then map[] else map["X-RateLimit-Limit" := Print(limit)])
                  + (if remaining < 0 then map[] else map["X-RateLimit-Remaining" := Print(remaining)])
  {
    FormattedParts(tier, limit, remaining, retryAfter);
    var parts := PartsOf(FormatQuotaMessage(tier, limit, remaining, retryAfter));
    FieldsDiffer();
    HeaderOfField(parts, "retry_after", "Retry-After", retryAfter);
    HeaderOfField(parts, "limit", "X-RateLimit-Limit", limit);
    HeaderOfField(parts, "remaining", "X-RateLimit-Remaining", remaining);
  }

  /** A first word without an equals sign is passed over. */
  lemma FirstField(w: string, key: string, v: string)
    requires IsName(w) && IsName(key) && SpaceFree(v)
    ensures PartsOf(w + " " + (key + "=" + v)) == START[key := ReadValue(v)]
  {
    NamesAreSpaceFree(w);
    OneWord(w);
    assert Parts([w], 1) == Assign(Parts([w], 0), w);
    LastAssignment(w, key, v);
  }

  /** A tier without spaces: the answer holds the five fields and no other. */
  lemma SpaceFreeTier(tier: string, limit: int, remaining: int, retryAfter: int)
    requires SpaceFree(tier)
    ensures PartsOf(FormatQuotaMessage(tier, limit, remaining, retryAfter))
            == START["tier" := ReadValue(tier)]["limit" := Field(limit)]
                  ["remaining" := Field(remaining)]["retry_after" := Field(retryAfter)]
  {
    FormattedParts(tier, limit, remaining, retryAfter);
    TierField(tier);
  }

  lemma TierField(tier: string)
    requires SpaceFree(tier)
    ensures PartsOf("rate_limited" + " " + ("tier" + "=" + tier)) == START["tier" := ReadValue(tier)]
  {
    var w, key := "rate_limited", "tier";
    assert IsName(w);
    assert IsName(key);
    FirstField(w, key, tier);
  }

  ghost predicate TextsSpaceFree(parts: map<string, Value>) {
    forall key | key in parts && parts[key].Text? :: SpaceFree(parts[key].s)
  }

  lemma AssignKeepsTexts(parts: map<string, Value>, token: string)
    requires TextsSpaceFree(parts) && SpaceFree(token)
    ensures TextsSpaceFree(Assign(parts, token))
  {
    var i := FirstEquals(token);
    if i < |token| {
      var v := token[i + 1..];
      assert SpaceFree(v) by {
        assert forall k :: 0 <= k < |v| ==> v[k] == token[i + 1 + k];
      }
    }
  }

  /** Every text in the answer is part of one word. */
  lemma {:induction false} TextsAreSpaceFree(msg: string, n: nat)
    requires n <= |Words(msg)|
    ensures TextsSpaceFree(Parts(Words(msg), n))
  {
    if n == 0 {
      assert IsName("rate_limited");
      NamesAreSpaceFree("rate_limited");
    } else {
      WordsAreSpaceFree(msg, n - 1);
      TextsAreSpaceFree(msg, n - 1);
      AssignKeepsTexts(Parts(Words(msg), n - 1), Words(msg)[n - 1]);
    }
  }

  /** The tier comes back as it was given exactly when it has no space in it
      and is not a number. */
  lemma TierComesBackIff(tier: string, limit: int, remaining: int, retryAfter: int)
    ensures var parts := PartsOf(FormatQuotaMessage(tier, limit, remaining, retryAfter));
            ("tier" in parts && parts["tier"] == Text(tier)) <==> SpaceFree(tier) && !AllDigits(tier)
  {
    var msg := FormatQuotaMessage(tier, limit, remaining, retryAfter);
    if SpaceFree(tier) {
      SpaceFreeTier(tier, limit, remaining, retryAfter);
      FieldsDiffer();
    } else if "tier" in PartsOf(msg) {
      TextsAreSpaceFree(msg, |Words(msg)|);
    }
  }

  /** The tiers the limits pass: a fixed name, or one that ends in the slug of
      a platform. */
  ghost predicate CallersTier(tier: string) {
    || IsName(tier)
    || exists slug :: IsName(slug) && tier == "platform_quota:" + slug
  }

  lemma CallersTierComesBack(tier: string, limit: int, remaining: int, retryAfter: int)
    requires CallersTier(tier)
    ensures var parts := PartsOf(FormatQuotaMessage(tier, limit, remaining, retryAfter));
            "tier" in parts && parts["tier"] == Text(tier)
  {
    if !IsName(tier) {
      var prefix := "platform_quota:";
      var slug :| IsName(slug) && tier == prefix + slug;
      assert SpaceFree(prefix);
      NamesAreSpaceFree(slug);
    } else {
      NamesAreSpaceFree(tier);
    }
    assert !IsDigit(tier[0]);
    TierComesBackIff(tier, limit, remaining, retryAfter);
  }
}
