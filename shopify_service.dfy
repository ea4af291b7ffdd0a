/**
 * `createShopifyDiscount`: turns a discount request into a price-rule payload, creates the
 * price rule, then creates a discount code linked to the rule id the platform returned.
 * The platform's replies are parameters; the method returns the requests it issued.
 */
module ShopifyService {
  import opened Wrappers
  import opened Text

  /** The argument of `createShopifyDiscount`. */
  datatype DiscountData = DiscountData(title: string, discount: string, startDate: string, endDate: string)

  /**
   * The `price_rule` object sent to the platform. `startsAt` and `endsAt` hold the date text
   * the ISO timestamps are computed from.
   */
  datatype PriceRule = PriceRule(
    title: string,
    targetType: string,
    targetSelection: string,
    allocationMethod: string,
    valueType: string,
    value: string,
    customerSelection: string,
    startsAt: string,
    endsAt: string,
    usageLimit: nat,
    oncePerCustomer: bool)

  /** The two platform requests, in the form they are issued. */
  datatype ApiRequest =
    | CreatePriceRule(rule: PriceRule)
    | CreateDiscountCode(priceRuleId: int, code: string)

  /** The success record: the code the platform echoed back and the id of its rule. */
  datatype Created = Created(discountCode: string, priceRuleId: int)

  /** `s.replace('%', '')` with a string pattern: only the first `%` goes. */
  function RemoveFirstPercent(s: string): (r: string)
    ensures |s| - 1 <= |r| <= |s|
  {
    if s == [] then []
    else if s[0] == '%' then s[1..]
    else [s[0]] + RemoveFirstPercent(s[1..])
  }

  /** Text without a `%` is left alone. */
  lemma {:induction false} RemoveFirstPercentNone(s: string)
    requires Avoids(s, '%')
    ensures RemoveFirstPercent(s) == s
  {
    if s != [] {
      RemoveFirstPercentNone(s[1..]);
    }
  }

  /** The first `%` is the one removed: text before it stays, text after it stays, including later `%`s. */
  lemma {:induction false} RemoveFirstPercentAt(before: string, after: string)
    requires Avoids(before, '%')
    ensures RemoveFirstPercent(before + "%" + after) == before + after
  {
    var s := before + "%" + after;
    if before == [] {
      assert s == "%" + after;
      assert s[1..] == after;
    } else {
      assert s[0] == before[0];
      assert s[1..] == before[1..] + "%" + after;
      RemoveFirstPercentAt(before[1..], after);
      assert before == [before[0]] + before[1..];
    }
  }

  /** Removing a `%` brings in no digit. */
  lemma {:induction false} RemoveFirstPercentNoDigit(s: string)
    requires forall i :: 0 <= i < |s| ==> !IsDigit(s[i])
    ensures forall i :: 0 <= i < |RemoveFirstPercent(s)| ==> !IsDigit(RemoveFirstPercent(s)[i])
  {
    if s != [] && s[0] != '%' {
      RemoveFirstPercentNoDigit(s[1..]);
    }
  }

  /**
   * `parseFloat(discount.replace('%', '')) || 0`, on the integer subset: leading white space
   * is skipped and the leading run of decimal digits is read; no digits (NaN) gives 0.
   */
  function DiscountValue(discount: string): (v: nat)
    ensures DigitPrefix(TrimStart(RemoveFirstPercent(discount))) == [] ==> v == 0
  {
    DigitsValue(DigitPrefix(TrimStart(RemoveFirstPercent(discount))))
  }

  /**
   * A number written as JavaScript prints it, after optional white space and with or without a
   * trailing `%`, reads back as that number.
   */
  lemma PercentRoundTrip(n: nat, lead: string)
    requires AllSpace(lead)
    ensures DiscountValue(lead + Decimal(n) + "%") == n
    ensures DiscountValue(lead + Decimal(n)) == n
  {
    var d := Decimal(n);
    assert Avoids(lead + d, '%') by {
      forall i | 0 <= i < |lead + d| ensures (lead + d)[i] != '%' {
        if i >= |lead| { assert (lead + d)[i] == d[i - |lead|]; }
        else { assert IsSpace(lead[i]); }
      }
    }
    RemoveFirstPercentAt(lead + d, "");
    assert lead + d + "%" + "" == lead + d + "%";
    assert lead + d + "" == lead + d;
    RemoveFirstPercentNone(lead + d);
    TrimStartOf(lead, d);
    DigitPrefixOf(d, []);
    assert d + [] == d;
    DecimalRoundTrip(n);
  }

  /** Text that holds no digit at all is worth 0. */
  lemma NoDigitsIsZero(discount: string)
    requires forall i :: 0 <= i < |discount| ==> !IsDigit(discount[i])
    ensures DiscountValue(discount) == 0
  {
    var u := RemoveFirstPercent(discount);
    RemoveFirstPercentNoDigit(discount);
    var t := TrimStart(u);
    TrimStartSpec(u);
    assert t != [] ==> t[0] == u[|u| - |t|];
  }

  /** The `value` field: `-${discountValue}`, a minus sign and the digits of the value without leading zeros. */
  function ValueField(value: nat): (r: string)
    ensures |r| >= 2 && r[0] == '-'
    ensures AllDigits(r[1..]) && DigitsValue(r[1..]) == value
    ensures r[1] == '0' ==> r == "-0"
  {
    DecimalRoundTrip(value);
    "-" + Decimal(value)
  }

  /** `title.replace(/\s+/g, '-')`: every maximal run of white space becomes one hyphen. */
  function HyphenateSpaces(s: string): (r: string)
    ensures NoSpace(r)
    ensures |r| <= |s|
    decreases |s|
  {
    if s == [] then []
    else if IsSpace(s[0]) then "-" + HyphenateSpaces(TrimStart(s[1..]))
    else [s[0]] + HyphenateSpaces(s[1..])
  }

  /** Text without white space is left alone. */
  lemma {:induction false} HyphenateNoSpace(s: string)
    requires NoSpace(s)
    ensures HyphenateSpaces(s) == s
  {
    if s != [] {
      HyphenateNoSpace(s[1..]);
    }
  }

  /**
   * A word, then a non-empty maximal run of white space, then the rest: the word is kept,
   * the whole run becomes a single hyphen, and the rest is processed on its own.
   */
  lemma {:induction false} HyphenateRun(word: string, run: string, rest: string)
    requires NoSpace(word)
    requires run != [] && AllSpace(run)
    requires rest == [] || !IsSpace(rest[0])
    ensures HyphenateSpaces(word + run + rest) == word + "-" + HyphenateSpaces(rest)
  {
    if word == [] {
      assert word + run + rest == run + rest;
      assert (run + rest)[1..] == run[1..] + rest;
      TrimStartOf(run[1..], rest);
    } else {
      assert (word + run + rest)[1..] == word[1..] + run + rest;
      HyphenateRun(word[1..], run, rest);
    }
  }

  /** The discount code derived from the rule title: white space runs hyphenated, then upper-cased. */
  function DiscountCode(title: string): (code: string)
    ensures NoSpace(code)
    ensures |code| <= |title|
    ensures forall i :: 0 <= i < |code| ==> !('a' <= code[i] <= 'z')
  {
    Upper(HyphenateSpaces(title))
  }

  /** Deriving the code from a code changes nothing. */
  lemma DiscountCodeIdempotent(title: string)
    ensures DiscountCode(DiscountCode(title)) == DiscountCode(title)
  {
    var c := DiscountCode(title);
    HyphenateNoSpace(c);
    assert Upper(c) == c;
  }

  /** Three words separated by single spaces: each space becomes a hyphen. */
  lemma HyphenateWords(a: string, b: string, c: string)
    requires NoSpace(a) && NoSpace(b) && NoSpace(c) && b != [] && c != []
    ensures HyphenateSpaces(a + " " + b + " " + c) == a + "-" + b + "-" + c
  {
    assert a + " " + b + " " + c == a + " " + (b + " " + c);
    HyphenateRun(a, " ", b + " " + c);
    HyphenateRun(b, " ", c);
    HyphenateNoSpace(c);
  }

  /** The price-rule payload: fixed targeting, percentage value, usage limit 100, once per customer. */
  function PriceRulePayload(data: DiscountData): (rule: PriceRule)
    ensures rule.title == data.title
    ensures rule.targetType == "line_item" && rule.targetSelection == "all"
    ensures rule.allocationMethod == "across" && rule.customerSelection == "all"
    ensures rule.valueType == "percentage"
    ensures |rule.value| >= 2 && rule.value[0] == '-' && AllDigits(rule.value[1..])
    ensures DigitsValue(rule.value[1..]) == DiscountValue(data.discount)
    ensures rule.value == ValueField(DiscountValue(data.discount))
    ensures rule.startsAt == data.startDate && rule.endsAt == data.endDate
    ensures rule.usageLimit == 100 && rule.oncePerCustomer
  {
    PriceRule(
      title := data.title,
      targetType := "line_item",
      targetSelection := "all",
      allocationMethod := "across",
      valueType := "percentage",
      value := ValueField(DiscountValue(data.discount)),
      customerSelection := "all",
      startsAt := data.startDate,
      endsAt := data.endDate,
      usageLimit := 100,
      oncePerCustomer := true)
  }

  /**
   * The two-step create. `ruleReply` is the platform's answer to the price-rule request (the new
   * rule's id, or the error it reported); `codeReply` its answer to the discount-code request
   * (the code it stored, or the error). Returns the requests issued, in order, and the outcome.
   */
  method CreateDiscount(data: DiscountData, ruleReply: Result<int, string>, codeReply: Result<string, string>)
    returns (sent: seq<ApiRequest>, outcome: Result<Created, string>)
    ensures |sent| >= 1 && sent[0] == CreatePriceRule(PriceRulePayload(data))
    ensures ruleReply.Failure? ==> sent == [sent[0]] && outcome == Failure(ruleReply.error)
    ensures ruleReply.Success? ==>
      sent == [sent[0], CreateDiscountCode(ruleReply.value, DiscountCode(data.title))]
    ensures ruleReply.Success? && codeReply.Failure? ==> outcome == Failure(codeReply.error)
    ensures outcome.Success? <==> ruleReply.Success? && codeReply.Success?
    ensures outcome.Success? ==> outcome.value == Created(codeReply.value, ruleReply.value)
  {
    var rule := PriceRulePayload(data);
    sent := [CreatePriceRule(rule)];
    if ruleReply.Failure? {
      outcome := Failure(ruleReply.error);
      return;
    }
    var priceRuleId := ruleReply.value;
    var code := DiscountCode(data.title);
    sent := sent + [CreateDiscountCode(priceRuleId, code)];
    if codeReply.Failure? {
      outcome := Failure(codeReply.error);
      return;
    }
    outcome := Success(Created(codeReply.value, priceRuleId));
  }
}
