/**
 * The `POST /api/command` handler: after the parser's reply it builds the rule title, picks
 * the automatic or the code path, creates the discount, builds the announcement's subject
 * and HTML body, and sends it. The parser, the platform and the mail service are parameters.
 */
module Command {
  import opened Wrappers
  import opened Text
  import ShopifyService

  /** The parser's reply as the handler reads it; `discountType` and `collection` may be absent. */
  datatype Parsed = Parsed(
    discount: string,
    product: string,
    startDate: string,
    endDate: string,
    discountType: Option<string>,
    collection: Option<string>)

  /** JavaScript truthiness of an optional string field. */
  predicate Present(s: Option<string>) {
    s.Some? && s.value != ""
  }

  /** `Discount for ${parsed.product}`. */
  function Title(product: string): (title: string)
    ensures |title| == 13 + |product|
    ensures title[..13] == "Discount for " && title[13..] == product
  {
    "Discount for " + product
  }

  /** Different products give different titles. */
  lemma TitleInjective(a: string, b: string)
    requires Title(a) == Title(b)
    ensures a == b
  {
    assert a == Title(a)[13..];
  }

  /** For a one-word product the derived discount code is `DISCOUNT-FOR-` and the product upper-cased. */
  lemma TitleCode(product: string)
    requires product != [] && NoSpace(product)
    ensures ShopifyService.DiscountCode(Title(product)) == "DISCOUNT-FOR-" + Upper(product)
  {
    ShopifyService.HyphenateWords("Discount", "for", product);
    assert Title(product) == "Discount" + " " + "for" + " " + product;
    assert "Discount" + "-" + "for" + "-" + product == "Discount-for-" + product;
    UpperConcat("Discount-for-", product);
    assert Upper("Discount-for-") == "DISCOUNT-FOR-";
  }

  /** Which creation procedure runs. */
  datatype Branch = AutomaticBranch | CodeBranch

  /** `parsed.discountType === "automatic"` selects the automatic path; anything else, absent included, the code path. */
  function ChooseBranch(discountType: Option<string>): (b: Branch)
    ensures b == AutomaticBranch <==> discountType == Some("automatic")
  {
    if discountType == Some("automatic") then AutomaticBranch else CodeBranch
  }

  /** The argument object passed to either creation procedure. */
  datatype DiscountRequest = DiscountRequest(
    title: string,
    discount: string,
    startDate: string,
    endDate: string,
    collection: Option<string>)

  /** The creation request for a parsed command; `parsed.collection || null` drops an empty collection. */
  function RequestFor(p: Parsed): (req: DiscountRequest)
    ensures req.title == Title(p.product)
    ensures req.discount == p.discount && req.startDate == p.startDate && req.endDate == p.endDate
    ensures req.collection.Some? <==> Present(p.collection)
    ensures req.collection.Some? ==> req.collection == p.collection
  {
    DiscountRequest(
      Title(p.product), p.discount, p.startDate, p.endDate,
      if Present(p.collection) then p.collection else None)
  }

  /** What the handler reads of the creation result: the `discount_code` entry, if the result has one. */
  datatype ShopifyResult = ShopifyResult(discountCode: Option<string>)

  /** The external calls the handler makes, with their arguments in the order it passes them. */
  datatype Call =
    | CreateAutomatic(request: DiscountRequest)
    | CreateCode(request: DiscountRequest)
    | SendEmail(subject: string, body: string)

  /** The handler's JSON reply. */
  datatype CommandResponse =
    | Done(parsed: Parsed, shopifyResult: ShopifyResult)
    | Failed(status: nat, error: string, details: Option<string>)

  /** The creation call for the chosen path. */
  function CreateCall(b: Branch, req: DiscountRequest): (c: Call)
    ensures c.CreateAutomatic? <==> b == AutomaticBranch
    ensures !c.SendEmail? && c.request == req
  {
    match b
    case AutomaticBranch => CreateAutomatic(req)
    case CodeBranch => CreateCode(req)
  }

  /** `${parsed.discount} OFF on ${parsed.product} – Limited Time Only!` */
  function Subject(p: Parsed): (subject: string)
    ensures |subject| >= |p.discount| && subject[..|p.discount|] == p.discount
    ensures Contains(subject, p.product)
  {
    ContainsPiece(p.discount + " OFF on ", p.product, " \U{2013} Limited Time Only!");
    p.discount + " OFF on " + p.product + " \U{2013} Limited Time Only!"
  }

  /** The auto-apply sentence (given in two parts, which lets the verifier read its first character). */
  const AutoApplied: string := "This discount will be " + "automatically applied at checkout."

  /** The sentence announcing a discount code; it is never the auto-apply sentence. */
  function CodeLine(code: string): (line: string)
    ensures line != AutoApplied
    ensures Contains(line, code)
  {
    var prefix := "Use discount code: <strong>";
    var line := prefix + (code + "</strong> at checkout!");
    assert line[0] == prefix[0] == 'U';
    ContainsPiece(prefix, code, "</strong> at checkout!");
    assert prefix + code + "</strong> at checkout!" == line;
    line
  }

  /** The sentence of the body that tells customers how the discount is applied, as the source selects it. */
  function PaymentLine(p: Parsed, r: ShopifyResult): (line: string)
    ensures line == AutoApplied <==> !(p.discountType == Some("code") && r.discountCode.Some?)
    ensures line != AutoApplied ==> line == CodeLine(r.discountCode.value)
  {
    if p.discountType == Some("code") && r.discountCode.Some? then CodeLine(r.discountCode.value)
    else AutoApplied
  }

  /** The collection paragraph, or nothing when no collection is named. */
  function CollectionLine(p: Parsed): (line: string)
    ensures line == [] <==> !Present(p.collection)
    ensures Present(p.collection) ==>
      Contains(line, "Applies only to collection: <strong>" + p.collection.value + "</strong>")
  {
    if Present(p.collection) then
      var piece := "Applies only to collection: <strong>" + p.collection.value + "</strong>";
      ContainsPiece("<p>\U{1F9FA} ", piece, "</p>");
      "<p>\U{1F9FA} " + piece + "</p>"
    else []
  }

  // The fixed parts of the body template, in order.
  const Heading: string := "\n      <h2>\U{1F389} New Discount Available!</h2>\n      <p>We're offering <strong>"
  const OffOn: string := "</strong> off on <strong>"
  const ValidFrom: string := "</strong>!</p>\n      <p>\U{1F5D3}\U{FE0F} <strong>Valid From:</strong> "
  const ValidTo: string := " <br>\n         \U{1F5D3}\U{FE0F} <strong>To:</strong> "
  const PaymentOpen: string := "</p>\n      <p>\U{1F4B8} "
  const PaymentClose: string := "</p>\n      "
  const Footer: string := "\n      <br/>\n      <p>Enjoy,</p>\n      <p>Your Store Team</p>\n    "

  /** The body template up to the payment sentence. */
  function BodyHead(p: Parsed): string {
    Heading + p.discount + OffOn + p.product + ValidFrom + p.startDate + ValidTo + p.endDate + PaymentOpen
  }

  /** The body template after the payment sentence. */
  function BodyTail(p: Parsed): string {
    PaymentClose + CollectionLine(p) + Footer
  }

  /** The HTML body with a given payment sentence. */
  function BodyWith(p: Parsed, payment: string): string {
    BodyHead(p) + payment + BodyTail(p)
  }

  /** The payment sentence and, when a collection is named, the collection paragraph appear in the body. */
  lemma BodyWithShows(p: Parsed, payment: string)
    ensures Contains(BodyWith(p, payment), payment)
    ensures Present(p.collection) ==>
      Contains(BodyWith(p, payment), "Applies only to collection: <strong>" + p.collection.value + "</strong>")
  {
    ContainsPiece(BodyHead(p), payment, BodyTail(p));
    if Present(p.collection) {
      var piece := "Applies only to collection: <strong>" + p.collection.value + "</strong>";
      ContainsWithin(PaymentClose, CollectionLine(p), Footer, piece);
      ContainsWithin(BodyHead(p) + payment, BodyTail(p), [], piece);
      assert BodyHead(p) + payment + BodyTail(p) + [] == BodyWith(p, payment);
    }
  }

  /** The HTML body as the source builds it: it carries the payment sentence and any collection paragraph. */
  function Body(p: Parsed, r: ShopifyResult): (body: string)
    ensures Contains(body, PaymentLine(p, r))
    ensures Present(p.collection) ==>
      Contains(body, "Applies only to collection: <strong>" + p.collection.value + "</strong>")
  {
    BodyWithShows(p, PaymentLine(p, r));
    BodyWith(p, PaymentLine(p, r))
  }

  /** A `code`-type command whose result carries a code announces that code. */
  lemma BodyShowsCode(p: Parsed, r: ShopifyResult)
    requires p.discountType == Some("code") && r.discountCode.Some?
    ensures Contains(Body(p, r), CodeLine(r.discountCode.value))
  {
  }

  /** Every other command announces that the discount applies by itself. */
  lemma BodyShowsAutoApplied(p: Parsed, r: ShopifyResult)
    requires !(p.discountType == Some("code") && r.discountCode.Some?)
    ensures Contains(Body(p, r), AutoApplied)
  {
  }

  /** A named collection is announced. */
  lemma BodyShowsCollection(p: Parsed, r: ShopifyResult)
    requires Present(p.collection)
    ensures Contains(Body(p, r), "Applies only to collection: <strong>" + p.collection.value + "</strong>")
  {
  }

  /**
   * As written, the path and the announcement disagree when `discountType` is absent (the
   * parser's declared reply has no such field): the code path creates a code, and the body
   * tells customers the discount is applied automatically.
   */
  lemma CodePathAnnouncedAsAutomatic(p: Parsed, r: ShopifyResult)
    requires p.discountType == None && r.discountCode.Some?
    ensures ChooseBranch(p.discountType) == CodeBranch
    ensures PaymentLine(p, r) == AutoApplied
    ensures PaymentLine(p, r) != CodeLine(r.discountCode.value)
  {
  }

  /** The payment sentence keyed on the path actually taken: a code is announced whenever the code path returned one. */
  function IntendedPaymentLine(p: Parsed, r: ShopifyResult): (line: string)
    ensures ChooseBranch(p.discountType) == CodeBranch && r.discountCode.Some? ==>
      line == CodeLine(r.discountCode.value)
    ensures line == AutoApplied <==> !(ChooseBranch(p.discountType) == CodeBranch && r.discountCode.Some?)
  {
    if ChooseBranch(p.discountType) == CodeBranch && r.discountCode.Some? then CodeLine(r.discountCode.value)
    else AutoApplied
  }

  /** The body with the corrected payment sentence, and any collection paragraph. */
  function IntendedBody(p: Parsed, r: ShopifyResult): (body: string)
    ensures Contains(body, IntendedPaymentLine(p, r))
    ensures Present(p.collection) ==>
      Contains(body, "Applies only to collection: <strong>" + p.collection.value + "</strong>")
  {
    BodyWithShows(p, IntendedPaymentLine(p, r));
    BodyWith(p, IntendedPaymentLine(p, r))
  }

  /** With the corrected body a code created on the code path is always announced. */
  lemma IntendedBodyShowsCode(p: Parsed, r: ShopifyResult)
    requires ChooseBranch(p.discountType) == CodeBranch && r.discountCode.Some?
    ensures Contains(IntendedBody(p, r), CodeLine(r.discountCode.value))
  {
  }

  /** For the two documented discount types the corrected body is the source's body. */
  lemma IntendedBodyAgrees(p: Parsed, r: ShopifyResult)
    requires p.discountType == Some("code") || p.discountType == Some("automatic")
    ensures IntendedBody(p, r) == Body(p, r)
  {
    assert IntendedPaymentLine(p, r) == PaymentLine(p, r);
  }

  const ParseError: string := "Failed to parse command. OpenAI returned null."
  const ProcessError: string := "Failed to process command"
  /** The message the mail service's wrapper throws. */
  const MailError: string := "Failed to send email via Mailjet"

  /**
   * The handler. `parsed` is the parser's reply (None for null), `created` the creation
   * procedure's answer (its result, or the message of what it threw), `mailSent` whether the
   * send succeeded. Returns the calls made, in order, and the reply.
   */
  method HandleCommand(parsed: Option<Parsed>, created: Result<ShopifyResult, string>, mailSent: bool)
    returns (calls: seq<Call>, resp: CommandResponse)
    ensures parsed.None? ==> calls == [] && resp == Failed(400, ParseError, None)
    ensures parsed.Some? ==>
      |calls| >= 1 && calls[0] == CreateCall(ChooseBranch(parsed.value.discountType), RequestFor(parsed.value))
    ensures parsed.Some? && created.Failure? ==>
      calls == [calls[0]] && resp == Failed(500, ProcessError, Some(created.error))
    ensures parsed.Some? && created.Success? ==>
      && calls == [calls[0], SendEmail(Subject(parsed.value), Body(parsed.value, created.value))]
      && resp == if mailSent then Done(parsed.value, created.value) else Failed(500, ProcessError, Some(MailError))
    ensures resp.Done? <==> parsed.Some? && created.Success? && mailSent
  {
    calls := [];
    if parsed.None? {
      return calls, Failed(400, ParseError, None);
    }
    var p := parsed.value;
    var request := RequestFor(p);
    calls := calls + [CreateCall(ChooseBranch(p.discountType), request)];
    if created.Failure? {
      return calls, Failed(500, ProcessError, Some(created.error));
    }
    var shopifyResult := created.value;
    var emailSubject := Subject(p);
    var emailBody := Body(p, shopifyResult);
    calls := calls + [SendEmail(emailSubject, emailBody)];
    if !mailSent {
      return calls, Failed(500, ProcessError, Some(MailError));
    }
    resp := Done(p, shopifyResult);
  }

  /**
   * The handler with the corrected body: the same calls and replies as `HandleCommand`, but
   * the email announces a code whenever the code path returned one.
   */
  method HandleCommandIntended(parsed: Option<Parsed>, created: Result<ShopifyResult, string>, mailSent: bool)
    returns (calls: seq<Call>, resp: CommandResponse)
    ensures parsed.None? ==> calls == [] && resp == Failed(400, ParseError, None)
    ensures parsed.Some? ==>
      |calls| >= 1 && calls[0] == CreateCall(ChooseBranch(parsed.value.discountType), RequestFor(parsed.value))
    ensures parsed.Some? && created.Failure? ==>
      calls == [calls[0]] && resp == Failed(500, ProcessError, Some(created.error))
    ensures parsed.Some? && created.Success? ==>
      && calls == [calls[0], SendEmail(Subject(parsed.value), IntendedBody(parsed.value, created.value))]
      && resp == if mailSent then Done(parsed.value, created.value) else Failed(500, ProcessError, Some(MailError))
    ensures resp.Done? <==> parsed.Some? && created.Success? && mailSent
  {
    calls := [];
    if parsed.None? {
      return calls, Failed(400, ParseError, None);
    }
    var p := parsed.value;
    var request := RequestFor(p);
    calls := calls + [CreateCall(ChooseBranch(p.discountType), request)];
    if created.Failure? {
      return calls, Failed(500, ProcessError, Some(created.error));
    }
    var shopifyResult := created.value;
    var emailSubject := Subject(p);
    var emailBody := IntendedBody(p, shopifyResult);
    calls := calls + [SendEmail(emailSubject, emailBody)];
    if !mailSent {
      return calls, Failed(500, ProcessError, Some(MailError));
    }
    resp := Done(p, shopifyResult);
  }
}
