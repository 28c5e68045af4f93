// Verdicts on one scan result of the spam filter. The symbols come as a map, so every loop
// visits them in an arbitrary order; the functions say what must not depend on it.
module Classifier {
  datatype Verdict = SpamVerdict | HamVerdict | Uncertain | Unknown

  // A symbol's own name may be empty; then its key stands for it.
  datatype Symbol = Symbol(name: string, score: real)
  datatype Scan = Scan(score: real, action: string, skipped: bool, symbols: map<string, Symbol>)
  datatype Decision = Decision(verdict: Verdict, authenticated: bool, highRisk: bool, incomplete: bool)

  const FAILURES: seq<string> := ["TIMEOUT", "DNSFAIL", "TEMPFAIL"]
  const RISKS: seq<string> := [
    "PHISH", "FORGED", "SPOOF", "MALWARE", "VIRUS", "DKIM_REJECT", "DMARC_POLICY_REJECT", "ARC_REJECT",
    "MISSING_FROM", "MIME_BAD", "BAD_ATTACHMENT", "EXECUTABLE", "OLETOOLS", "RANSOMWARE", "ENCRYPTED_ARCHIVE",
    "SUSPICIOUS", "URL_REDIRECTOR", "SURBL", "URIBL"
  ]

  // ----- Text, as ASCII -----

  function UpperChar(c: char): char { if 'a' <= c <= 'z' then c - 'a' + 'A' else c }
  function LowerChar(c: char): char { if 'A' <= c <= 'Z' then c - 'A' + 'a' else c }
  function Upper(s: string): string { seq(|s|, i requires 0 <= i < |s| => UpperChar(s[i])) }
  function Lower(s: string): string { seq(|s|, i requires 0 <= i < |s| => LowerChar(s[i])) }

  predicate Blank(c: char) { c == ' ' || c == '\t' || c == '\n' || c == '\r' }

  function Trim(s: string): string {
    if s == "" then s else if Blank(s[0]) then Trim(s[1..]) else if Blank(s[|s| - 1]) then Trim(s[..|s| - 1]) else s
  }

  predicate StandsAt(s: string, part: string, i: nat) {
    i + |part| <= |s| && s[i..i + |part|] == part
  }

  predicate Contains(s: string, part: string) {
    exists i: nat :: i <= |s| && StandsAt(s, part, i)
  }

  predicate AnyIn(s: string, parts: seq<string>) {
    exists k :: 0 <= k < |parts| && Contains(s, parts[k])
  }

  // ----- What the result says, as a whole -----

  function NameOf(key: string, symbol: Symbol): string {
    if symbol.name == "" then Upper(key) else Upper(symbol.name)
  }

  predicate Marked(key: string, symbol: Symbol, parts: seq<string>) {
    AnyIn(Upper(key), parts) || AnyIn(NameOf(key, symbol), parts)
  }

  predicate SoftReject(r: Scan) { Lower(Trim(r.action)) == "soft reject" }

  predicate Incomplete(r: Scan) {
    r.skipped || SoftReject(r) || exists k :: k in r.symbols && Marked(k, r.symbols[k], FAILURES)
  }

  predicate Authenticated(r: Scan) {
    exists k :: k in r.symbols && NameOf(k, r.symbols[k]) == "DMARC_POLICY_ALLOW"
  }

  predicate HighRisk(r: Scan) {
    Incomplete(r) || Lower(Trim(r.action)) != "no action" || exists k :: k in r.symbols && Marked(k, r.symbols[k], RISKS)
  }

  function ScanVerdict(r: Scan, spam: real, ham: real, requireAuth: bool): Verdict {
    if Incomplete(r) then Uncertain
    else if r.score >= spam then SpamVerdict
    else if r.score <= ham && (Authenticated(r) || !requireAuth) && !HighRisk(r) then HamVerdict
    else Uncertain
  }

  predicate TimedOut(r: Scan) {
    exists k :: k in r.symbols && (Contains(Upper(k), "TIMEOUT") || Contains(Upper(r.symbols[k].name), "TIMEOUT"))
  }

  predicate NetworkFailed(r: Scan) {
    exists k :: k in r.symbols && FailedName(k, r.symbols[k])
  }

  predicate FailedName(key: string, symbol: Symbol) {
    || Contains(Upper(key), "DNSFAIL") || Contains(Upper(key), "TEMPFAIL")
    || Contains(Upper(symbol.name), "DNSFAIL") || Contains(Upper(symbol.name), "TEMPFAIL")
  }

  predicate BayesSymbol(key: string, symbol: Symbol) {
    Upper(key) == "BAYES_SPAM" || Upper(symbol.name) == "BAYES_SPAM"
  }

  // Strong evidence despite the failed check: a high score, or the learned model is sure.
  predicate StrongEvidence(r: Scan) {
    r.score >= 12.0 || exists k :: k in r.symbols && BayesSymbol(k, r.symbols[k]) && r.symbols[k].score >= 3.0
  }

  function DeliveryVerdict(r: Scan, spam: real, ham: real, requireAuth: bool): Verdict {
    if !Incomplete(r) || r.skipped || SoftReject(r) then ScanVerdict(r, spam, ham, requireAuth)
    else if !TimedOut(r) && NetworkFailed(r) && r.score >= spam && StrongEvidence(r) then SpamVerdict
    else Uncertain
  }

  // ----- The loops -----

  // Classify. `order` is the order in which the map happens to be visited.
  method Classify(r: Scan, spam: real, ham: real, requireAuth: bool, order: seq<string>) returns (d: Decision)
    requires forall k :: k in order <==> k in r.symbols
    ensures d == Decision(ScanVerdict(r, spam, ham, requireAuth), Authenticated(r), HighRisk(r), Incomplete(r))
  {
    hide Marked, NameOf, SoftReject;
    var authenticated, highRisk, incomplete := false, false, r.skipped || SoftReject(r);
    for i := 0 to |order|
      invariant authenticated <==> exists k :: k in order[..i] && NameOf(k, r.symbols[k]) == "DMARC_POLICY_ALLOW"
      invariant highRisk <==> exists k :: k in order[..i] && Marked(k, r.symbols[k], RISKS)
      invariant incomplete <==> (r.skipped || SoftReject(r) || exists k :: k in order[..i] && Marked(k, r.symbols[k], FAILURES))
    {
      var key := order[i];
      assert key in r.symbols;
      var symbol := r.symbols[key];
      assert forall k :: k in order[..i + 1] <==> k in order[..i] || k == key;
      if Marked(key, symbol, FAILURES) { incomplete := true; }
      if NameOf(key, symbol) == "DMARC_POLICY_ALLOW" { authenticated := true; }
      if Marked(key, symbol, RISKS) { highRisk := true; }
    }
    assert order[..|order|] == order;
    if Lower(Trim(r.action)) != "no action" || incomplete { highRisk := true; }
    var verdict := Uncertain;
    if !incomplete {
      if r.score >= spam {
        verdict := SpamVerdict;
      } else if r.score <= ham && (authenticated || !requireAuth) && !highRisk {
        verdict := HamVerdict;
      }
    }
    d := Decision(verdict, authenticated, highRisk, incomplete);
  }

  // ClassifyDelivery: a failed DNS check still permits reversible quarantine.
  method ClassifyDelivery(r: Scan, spam: real, ham: real, requireAuth: bool, order: seq<string>) returns (d: Decision)
    requires forall k :: k in order <==> k in r.symbols
    ensures d == Decision(DeliveryVerdict(r, spam, ham, requireAuth), Authenticated(r), HighRisk(r), Incomplete(r))
  {
    d := Classify(r, spam, ham, requireAuth, order);
    if !d.incomplete || r.skipped || SoftReject(r) { return; }
    hide TimedOut, NetworkFailed, StrongEvidence, Incomplete, Authenticated, HighRisk, SoftReject;
    var timedOut, failed, bayes := Failures(r, order);
    if !timedOut && failed && r.score >= spam && (r.score >= 12.0 || bayes) { d := d.(verdict := SpamVerdict); }
    StrongWhen(r);
  }

  ghost predicate SureBayes(r: Scan) {
    exists k :: k in r.symbols && BayesSymbol(k, r.symbols[k]) && r.symbols[k].score >= 3.0
  }

  lemma StrongWhen(r: Scan)
    ensures StrongEvidence(r) <==> r.score >= 12.0 || SureBayes(r)
  {
  }

  // One pass over the symbols: it stops at a timeout, and otherwise reports whether a
  // lookup failed and whether the greatest Bayes score is at least three.
  method Failures(r: Scan, order: seq<string>) returns (timedOut: bool, failed: bool, bayes: bool)
    requires forall k :: k in order <==> k in r.symbols
    ensures timedOut <==> TimedOut(r)
    ensures !timedOut ==> (failed <==> NetworkFailed(r)) && (bayes <==> SureBayes(r))
  {
    hide Contains, FailedName, BayesSymbol;
    failed, bayes := false, false;
    var highest := 0.0;
    for i := 0 to |order|
      invariant forall k :: k in order[..i] ==>
        !Contains(Upper(k), "TIMEOUT") && !Contains(Upper(r.symbols[k].name), "TIMEOUT")
      invariant failed <==> exists k :: k in order[..i] && FailedName(k, r.symbols[k])
      invariant highest >= 3.0 <==> exists k :: k in order[..i] && BayesSymbol(k, r.symbols[k]) && r.symbols[k].score >= 3.0
    {
      var key := order[i];
      assert key in r.symbols;
      var symbol := r.symbols[key];
      assert forall k :: k in order[..i + 1] <==> k in order[..i] || k == key;
      if Contains(Upper(key), "TIMEOUT") || Contains(Upper(symbol.name), "TIMEOUT") { return true, failed, false; }
      if FailedName(key, symbol) { failed := true; }
      if BayesSymbol(key, symbol) && symbol.score > highest { highest := symbol.score; }
    }
    assert order[..|order|] == order;
    return false, failed, highest >= 3.0;
  }

  // ClassifyPermanent: deletion keeps a score floor of its own and needs every check.
  method ClassifyPermanent(r: Scan, spam: real, ham: real, requireAuth: bool, order: seq<string>) returns (d: Decision)
    requires forall k :: k in order <==> k in r.symbols
    ensures d.verdict == SpamVerdict ==> r.score >= 12.0 && r.score >= spam && !d.incomplete
    ensures d.verdict == SpamVerdict ==> DeliveryVerdict(r, spam, ham, requireAuth) == SpamVerdict
    ensures d.verdict == ScanVerdict(r, if spam < 12.0 then 12.0 else spam, ham, requireAuth)
  {
    d := Classify(r, if spam < 12.0 then 12.0 else spam, ham, requireAuth, order);
  }

  // ----- Measuring at one threshold, running at another -----

  const MEASURED_AT := 6.0
  const HAM_AT := -2.0

  // For every result and every frozen threshold t: "spam at 6, and a score of at least t"
  // is what production decides at t, and the ham verdict does not depend on t.
  lemma MeasuredIsProduction(r: Scan, t: real)
    requires t >= MEASURED_AT
    ensures (DeliveryVerdict(r, MEASURED_AT, HAM_AT, true) == SpamVerdict && r.score >= t) <==> DeliveryVerdict(r, t, HAM_AT, true) == SpamVerdict
    ensures DeliveryVerdict(r, MEASURED_AT, HAM_AT, true) == HamVerdict <==> DeliveryVerdict(r, t, HAM_AT, true) == HamVerdict
  {
    hide TimedOut, NetworkFailed, StrongEvidence, HighRisk, Authenticated;
  }
}
