/** Provider usage: how the relay reads it, prices it, and how the usage package records it. Counts are
    64-bit integers in the original, so the additions that can overflow wrap here as they do there. */
module UsageLedger {
  import opened Sequences

  const TWO_63: int := 0x8000_0000_0000_0000
  const TWO_64: int := 0x1_0000_0000_0000_0000

  newtype Int64 = x: int | -0x8000_0000_0000_0000 <= x < 0x8000_0000_0000_0000

  /** 64-bit addition. */
  function Add(a: Int64, b: Int64): Int64 {
    ((a as int + b as int + TWO_63) % TWO_64 - TWO_63) as Int64
  }

  function Max(a: Int64, b: Int64): Int64 {
    if a > b then a else b
  }

  /** The usage fields a provider response may carry; absent ones are 0. */
  datatype RawUsage = RawUsage(
    promptTokens: Int64, completionTokens: Int64, totalTokens: Int64, inputTokens: Int64, outputTokens: Int64,
    reasoningTokens: Int64, detailReasoningTokens: Int64,
    cacheReads: seq<Int64>, cacheWrites: seq<Int64>)

  datatype Usage = Usage(
    total: Int64, input: Int64, output: Int64, reasoning: Int64, cacheRead: Int64, cacheWrite: Int64)

  function MaxOf(counts: seq<Int64>): Int64 {
    if counts == [] then 0 else Max(counts[0], MaxOf(counts[1..]))
  }

  /** The token counts parseCompletionUsage works from. */
  function InputOf(raw: RawUsage): Int64 {
    if raw.promptTokens == 0 then raw.inputTokens else raw.promptTokens
  }

  function OutputOf(raw: RawUsage): Int64 {
    if raw.completionTokens == 0 then raw.outputTokens else raw.completionTokens
  }

  /** parseCompletionUsage on a decoded body: the normalised usage, or nothing when it reports no tokens. */
  function Parse(raw: RawUsage): (Usage, bool) {
    var input, output := InputOf(raw), OutputOf(raw);
    var total := if raw.totalTokens == 0 then Add(input, output) else raw.totalTokens;
    var u := Usage(Max(0, Max(total, Add(input, output))), Max(0, input), Max(0, output),
                   Max(0, Max(raw.reasoningTokens, raw.detailReasoningTokens)),
                   MaxOf(raw.cacheReads), MaxOf(raw.cacheWrites));
    (u, u.total > 0 || u.input > 0 || u.output > 0)
  }

  /** Dollars per million tokens, exactly. */
  datatype Rate = Rate(input: real, output: real)

  /** The price in millionths of a dollar, rounded to nearest; some tokens never cost nothing. The
      original computes in floating point; here the rate arithmetic is exact. */
  function EstimateCost(rate: Rate, tokensIn: Int64, tokensOut: Int64): int {
    var i, o := Max(0, tokensIn) as int, Max(0, tokensOut) as int;
    var cost := (i as real * rate.input + o as real * rate.output + 0.5).Floor;
    if cost == 0 && i + o > 0 then 1 else cost
  }

  /** What the relay adds to the budget for one call. */
  datatype Charge = Charge(tokens: int, micros: int)

  function ChargeFor(rate: Rate, u: Usage): Charge {
    var cost := EstimateCost(rate, u.input, u.output);
    Charge(Max(0, u.total) as int, if cost > 0 then cost else 0)
  }

  datatype Record = Record(scope: string, operationID: string, tokens: int, micros: int)

  /** The row RecordScoped appends for the same usage. */
  function RowFor(rate: Rate, scope: string, operationID: string, u: Usage): Record {
    var i, o := Max(0, u.input), Max(0, u.output);
    Record(scope, operationID, (if u.total <= 0 then Add(i, o) else u.total) as int, EstimateCost(rate, i, o))
  }

  /** Rates that price tokens at no less than nothing. */
  predicate ValidRate(rate: Rate) {
    rate.input >= 0.0 && rate.output >= 0.0
  }

  /** The usages for which both sides count the same tokens. */
  predicate Consistent(u: Usage) {
    u.total > 0 || (u.input <= 0 && u.output <= 0)
  }

  /** Budget and ledger take the same price for every usage, and the same number of tokens exactly for
      the consistent ones. */
  lemma ChargeMatchesRow(rate: Rate, scope: string, operationID: string, u: Usage)
    requires ValidRate(rate)
    ensures ChargeFor(rate, u).micros == RowFor(rate, scope, operationID, u).micros
    ensures ChargeFor(rate, u).tokens == RowFor(rate, scope, operationID, u).tokens <==> Consistent(u)
  {
    CostNonNegative(rate, u.input, u.output);
    var i, o := Max(0, u.input), Max(0, u.output);
    assert Add(i, o) as int == i as int + o as int || Add(i, o) as int == i as int + o as int - TWO_64;
  }

  lemma CostNonNegative(rate: Rate, tokensIn: Int64, tokensOut: Int64)
    requires ValidRate(rate)
    ensures EstimateCost(rate, tokensIn, tokensOut) >= 0
    ensures Max(0, tokensIn) as int + Max(0, tokensOut) as int > 0 ==> EstimateCost(rate, tokensIn, tokensOut) >= 1
  {
    var i, o := Max(0, tokensIn) as int as real, Max(0, tokensOut) as int as real;
    Product(i, rate.input);
    Product(o, rate.output);
  }

  lemma Product(a: real, b: real)
    requires a >= 0.0 && b >= 0.0
    ensures a * b >= 0.0
  {
  }

  /** More tokens never cost less. */
  lemma CostMonotone(rate: Rate, in1: Int64, out1: Int64, in2: Int64, out2: Int64)
    requires ValidRate(rate) && in1 <= in2 && out1 <= out2
    ensures EstimateCost(rate, in1, out1) <= EstimateCost(rate, in2, out2)
  {
    var i1, o1 := Max(0, in1) as int as real, Max(0, out1) as int as real;
    var i2, o2 := Max(0, in2) as int as real, Max(0, out2) as int as real;
    Product(i2 - i1, rate.input);
    Product(o2 - o1, rate.output);
    assert i2 * rate.input - i1 * rate.input == (i2 - i1) * rate.input;
    assert o2 * rate.output - o1 * rate.output == (o2 - o1) * rate.output;
    CostNonNegative(rate, in1, out1);
    CostNonNegative(rate, in2, out2);
  }

  /** The price is that of the input tokens at the input rate and the output tokens at the output rate, to the
      nearest millionth and upwards from a half; some tokens cost at least one. */
  lemma CostNearest(rate: Rate, tokensIn: Int64, tokensOut: Int64)
    requires ValidRate(rate)
    ensures var i, o :=
        if tokensIn > 0 then tokensIn as real else 0.0, if tokensOut > 0 then tokensOut as real else 0.0;
      var exact, cost := i * rate.input + o * rate.output, EstimateCost(rate, tokensIn, tokensOut) as real;
      if exact < 0.5 then cost == (if tokensIn > 0 || tokensOut > 0 then 1.0 else 0.0)
      else cost - 0.5 <= exact < cost + 0.5
  {
    CostNonNegative(rate, tokensIn, tokensOut);
    var i, o := Max(0, tokensIn) as int as real, Max(0, tokensOut) as int as real;
    Product(i, rate.input);
    Product(o, rate.output);
  }

  /** The largest of the counts, but no less than 0. */
  ghost predicate Largest(most: Int64, counts: seq<Int64>) {
    most >= 0 && (most == 0 || most in counts) && forall count :: count in counts ==> count <= most
  }

  lemma {:induction false} LargestOf(counts: seq<Int64>)
    ensures Largest(MaxOf(counts), counts)
  {
    if counts != [] {
      LargestOf(counts[1..]);
      assert forall count :: count in counts <==> count == counts[0] || count in counts[1..];
    }
  }

  /** The sum where it fits 64 bits, and otherwise off by 2 to the 64th. */
  lemma AddIs(a: Int64, b: Int64)
    ensures var sum := a as int + b as int;
      Add(a, b) as int == if sum >= TWO_63 then sum - TWO_64 else if sum < -TWO_63 then sum + TWO_64 else sum
  {
  }

  /** How an answer is read: the counts of the one API, or of the other where those are absent; a total that
      covers input and output; never less than nothing. It is unreadable if it reports no tokens at all. */
  lemma UsageRead(raw: RawUsage)
    ensures var u, i, o := Parse(raw).0,
        if raw.promptTokens != 0 then raw.promptTokens else raw.inputTokens,
        if raw.completionTokens != 0 then raw.completionTokens else raw.outputTokens;
      && Largest(u.input, [i]) && Largest(u.output, [o])
      && Largest(u.total, [Add(i, o), raw.totalTokens])
      && Largest(u.reasoning, [raw.reasoningTokens, raw.detailReasoningTokens])
      && Largest(u.cacheRead, raw.cacheReads) && Largest(u.cacheWrite, raw.cacheWrites)
      && (Parse(raw).1 <==> raw.totalTokens > 0 || Add(i, o) > 0 || i > 0 || o > 0)
  {
    LargestOf(raw.cacheReads);
    LargestOf(raw.cacheWrites);
  }

  /** What one answer costs its budget: its total, and the price of its input and output. */
  lemma ChargeIs(rate: Rate, raw: RawUsage)
    requires ValidRate(rate)
    ensures var u, charge := Parse(raw).0, ChargeFor(rate, Parse(raw).0);
      charge.tokens == u.total as int && charge.micros == EstimateCost(rate, u.input, u.output)
  {
    CostNonNegative(rate, Parse(raw).0.input, Parse(raw).0.output);
  }

  /** A provider that reports no negative counts, and counts whose sum fits 64 bits, is always read
      consistently, with a total that covers input plus output. */
  lemma HonestUsageConsistent(raw: RawUsage)
    requires InputOf(raw) >= 0 && OutputOf(raw) >= 0
    requires InputOf(raw) as int + OutputOf(raw) as int < TWO_63
    ensures Consistent(Parse(raw).0)
    ensures Parse(raw).0.total as int >= Parse(raw).0.input as int + Parse(raw).0.output as int
  {
  }

  /** A negative count breaks the agreement: -10 and 10 sum to a total of 0, which the budget charges and
      the ledger replaces by 10. */
  lemma NegativeCountDisagrees(rate: Rate, scope: string, operationID: string)
    requires ValidRate(rate)
    ensures exists raw: RawUsage ::
      (Parse(raw).1 && ChargeFor(rate, Parse(raw).0).tokens != RowFor(rate, scope, operationID, Parse(raw).0).tokens)
  {
    var raw := RawUsage(-10, 10, 0, 0, 0, 0, 0, [], []);
    assert Parse(raw).0.total == 0 && Parse(raw).0.output == 10;
    ChargeMatchesRow(rate, scope, operationID, Parse(raw).0);
  }

  /** The usage package's in-memory store and the recording service above it. */
  class InMemoryStore {
    var records: seq<Record>

    constructor ()
      ensures records == []
    {
      records := [];
    }

    method Append(record: Record)
      modifies this
      ensures records == old(records) + [record]
    {
      records := records + [record];
    }

    method List(scope: string) returns (out: seq<Record>)
      ensures out == InScope(records, scope)
    {
      out := [];
      for i := 0 to |records|
        invariant InScope(records, scope) == out + InScope(records[i..], scope)
      {
        InScopeNext(records, i, scope, out);
        if records[i].scope == scope {
          out := out + [records[i]];
        }
      }
    }

    method RecordScoped(scope: string, operationID: string, u: Usage, rate: Rate) returns (ok: bool)
      modifies this
      ensures ok <==> scope != ""
      ensures records == if ok then old(records) + [RowFor(rate, scope, operationID, u)] else old(records)
    {
      if scope == "" {
        return false;
      }
      var tokensIn := if u.input < 0 then 0 else u.input;
      var tokensOut := if u.output < 0 then 0 else u.output;
      var total := u.total;
      if total <= 0 {
        total := Add(tokensIn, tokensOut);
      }
      Append(Record(scope, operationID, total as int, EstimateCost(rate, tokensIn, tokensOut)));
      return true;
    }
  }

  lemma InScopeNext(records: seq<Record>, i: nat, scope: string, out: seq<Record>)
    requires i < |records|
    ensures out + InScope(records[i..], scope) ==
      (if records[i].scope == scope then out + [records[i]] else out) + InScope(records[i + 1..], scope)
  {
    Advance(records, i);
    Regroup(out, records[i], InScope(records[i + 1..], scope));
  }

  function InScope(records: seq<Record>, scope: string): seq<Record> {
    if records == [] then []
    else (if records[0].scope == scope then [records[0]] else []) + InScope(records[1..], scope)
  }
}
