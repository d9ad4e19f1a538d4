/** The order-status e-mail: the subject and message of each status, the
    status label, the plain-text body, and the control flow that skips the
    mail when Gmail is not configured and swallows send failures. */
module StatusEmail {
  import opened Util
  import opened Orders

  /** `statusMessages[status].subject`: a status phrase and the service name. */
  function Subject(s: OrderStatus): string {
    SubjectHead(s) + Brand
  }

  function SubjectHead(s: OrderStatus): string {
    match s
    case SENT => "Order Confirmed"
    case RECEIVED => "Order Received"
    case SHIPPING => "Order Out for Delivery"
    case DELIVERED => "Order Delivered"
  }

  const Brand := " - CampusEaters"

  /** `statusMessages[status].message`. */
  function Message(s: OrderStatus): string {
    match s
    case SENT => "Your order has been confirmed and sent to the restaurant."
    case RECEIVED => "The restaurant has received your order and is preparing it."
    case SHIPPING => "Your order is on its way! Our delivery robot is bringing it to you."
    case DELIVERED => "Your order has been delivered! Enjoy your meal."
  }

  /** Each status has its own subject: the seventh character tells them apart. */
  lemma SubjectsDistinct(s: OrderStatus, t: OrderStatus)
    ensures Subject(s) == Subject(t) <==> s == t
  {
    assert Subject(s)[6] == SubjectHead(s)[6] == "CROD"[IndexOf(s)];
    assert Subject(t)[6] == SubjectHead(t)[6] == "CROD"[IndexOf(t)];
  }

  /** `status.charAt(0) + status.slice(1).toLowerCase()`. */
  function StatusLabel(s: OrderStatus): (lbl: string)
    ensures |lbl| == |Name(s)| && lbl[0] == Name(s)[0]
    ensures forall i :: 1 <= i < |lbl| ==> lbl[i] == LowerChar(Name(s)[i])
  {
    var name := Name(s);
    [name[0]] + ToLower(name[1..])
  }

  /** The label capitalises the status name: SENT reads "Sent". */
  lemma SentLabel()
    ensures StatusLabel(SENT) == "Sent"
  {
    var l := StatusLabel(SENT);
    assert l[1] == 'e' && l[2] == 'n' && l[3] == 't';
  }

  /** SHIPPING reads "Shipping". */
  lemma ShippingLabel()
    ensures StatusLabel(SHIPPING) == "Shipping"
  {
    var l := StatusLabel(SHIPPING);
    assert l[1] == 'h' && l[2] == 'i' && l[3] == 'p' && l[4] == 'p' && l[5] == 'i' && l[6] == 'n' && l[7] == 'g';
  }

  /** `OrderStatusEmailData`. */
  datatype EmailData = EmailData(
    userEmail: string,
    userName: string,
    orderNumber: int,
    status: OrderStatus,
    restaurantName: string,
    deliveryLocation: string)

  /** The two environment variables; the transporter exists when both are set. */
  datatype Config = Config(gmailUser: string, gmailAppPassword: string)

  predicate Configured(c: Config) {
    c.gmailUser != "" && c.gmailAppPassword != ""
  }

  /** The mail handed to the transporter (the HTML part is not modelled). */
  datatype Mail = Mail(from: string, to: string, subject: string, text: string)

  const Indent := "        "

  const Heading := "CampusEaters - Order Status Update"
  const TrackingNote := "You can track your order status at any time by visiting our website."
  const SupportNote := "If you have any questions, please contact our support team."
  const AutomatedNote := "This is an automated email. Please do not reply to this message."

  /** The opening lines of the `text` template, without their indentation:
      the heading, the greeting and the status message. */
  function Greeting(d: EmailData): (lines: seq<string>)
    ensures |lines| == 6
  {
    [Heading, "", "Hello " + d.userName + ",", "", Message(d.status), ""]
  }

  /** The order details of the `text` template. */
  function Details(d: EmailData): (lines: seq<string>)
    ensures |lines| == 4
  {
    [ "Order Number: #" + IntToString(d.orderNumber),
      "Status: " + StatusLabel(d.status),
      "Restaurant: " + d.restaurantName,
      "Delivery Location: " + d.deliveryLocation ]
  }

  /** The closing lines of the `text` template. */
  const Footer: seq<string> := ["", TrackingNote, "", SupportNote, "", "---", AutomatedNote]

  /** Each line indented and ended by a newline. */
  function Block(lines: seq<string>): string {
    if lines == [] then [] else Indent + lines[0] + "\n" + Block(lines[1..])
  }

  /** Every line of a block appears in it, indented, on a line of its own. */
  lemma {:induction false} BlockContainsLine(lines: seq<string>, k: nat)
    requires k < |lines|
    ensures Contains(Block(lines), Indent + lines[k] + "\n")
  {
    var rest := Block(lines[1..]);
    if k == 0 {
      ContainsInfix([], Indent + lines[0] + "\n", rest);
      assert [] + (Indent + lines[0] + "\n") + rest == Block(lines);
    } else {
      BlockContainsLine(lines[1..], k - 1);
      ContainsPrepend(Indent + lines[0] + "\n", rest, Indent + lines[k] + "\n");
    }
  }

  /** The `text` template: a newline, the indented lines, and the closing
      indentation of the literal. */
  function TextBody(d: EmailData): string {
    "\n" + Block(Greeting(d)) + Block(Details(d)) + Block(Footer) + "      "
  }

  /** The text greets the customer by name and carries the status message,
      the order number, the status label, the restaurant and the delivery
      location, each on its own line. */
  lemma TextBodyMentions(d: EmailData)
    ensures Contains(TextBody(d), Indent + ("Hello " + d.userName + ",") + "\n")
    ensures Contains(TextBody(d), Indent + Message(d.status) + "\n")
    ensures Contains(TextBody(d), Indent + ("Order Number: #" + IntToString(d.orderNumber)) + "\n")
    ensures Contains(TextBody(d), Indent + ("Status: " + StatusLabel(d.status)) + "\n")
    ensures Contains(TextBody(d), Indent + ("Restaurant: " + d.restaurantName) + "\n")
    ensures Contains(TextBody(d), Indent + ("Delivery Location: " + d.deliveryLocation) + "\n")
  {
    GreetingInText(d, 2);
    GreetingInText(d, 4);
    DetailInText(d, 0);
    DetailInText(d, 1);
    DetailInText(d, 2);
    DetailInText(d, 3);
  }

  lemma GreetingInText(d: EmailData, k: nat)
    requires k < 6
    ensures Contains(TextBody(d), Indent + Greeting(d)[k] + "\n")
  {
    var g := Block(Greeting(d));
    BlockContainsLine(Greeting(d), k);
    ContainsPrepend("\n", g, Indent + Greeting(d)[k] + "\n");
    ContainsAppend("\n" + g, Block(Details(d)) + Block(Footer) + "      ", Indent + Greeting(d)[k] + "\n");
    assert "\n" + g + (Block(Details(d)) + Block(Footer) + "      ") == TextBody(d);
  }

  lemma DetailInText(d: EmailData, k: nat)
    requires k < 4
    ensures Contains(TextBody(d), Indent + Details(d)[k] + "\n")
  {
    var head := "\n" + Block(Greeting(d));
    var tail := Block(Footer) + "      ";
    BlockContainsLine(Details(d), k);
    ContainsPrepend(head, Block(Details(d)), Indent + Details(d)[k] + "\n");
    ContainsAppend(head + Block(Details(d)), tail, Indent + Details(d)[k] + "\n");
    assert head + Block(Details(d)) + tail == TextBody(d);
  }

  /** The mail `sendViaGmail` hands to the transporter. */
  function MailFor(c: Config, d: EmailData): (m: Mail)
    ensures m.to == d.userEmail && m.subject == Subject(d.status)
  {
    Mail("CampusEaters <" + c.gmailUser + ">", d.userEmail, Subject(d.status), TextBody(d))
  }

  /** How a call ends: normally, with the mail attempted (if any) and whether
      the transporter accepted it, or by throwing. */
  datatype Completion =
    | Normal(attempted: Option<Mail>, accepted: bool)
    | Threw(message: string)

  const NotInitializedError := "Gmail transporter not initialized"

  /** `sendViaGmail`; `sendFails` says whether `sendMail` rejects. A failed
      send is caught and logged, so only the missing configuration throws. */
  function SendViaGmail(c: Config, d: EmailData, sendFails: bool): (r: Completion)
    ensures r.Threw? <==> !Configured(c)
    ensures r.Threw? ==> r.message == NotInitializedError
    ensures r.Normal? ==> r.attempted == Some(MailFor(c, d)) && (r.accepted <==> !sendFails)
  {
    if !Configured(c) then Threw(NotInitializedError)
    else Normal(Some(MailFor(c, d)), !sendFails)
  }

  /** `sendOrderStatusEmail`. */
  function SendOrderStatusEmail(c: Config, d: EmailData, sendFails: bool): Completion {
    if !Configured(c) then Normal(None, false)
    else SendViaGmail(c, d, sendFails)
  }

  /** The caller never sees an exception: without configuration nothing is
      sent, and otherwise exactly one mail goes to the customer with the
      subject of the new status, whether or not the transporter takes it. */
  lemma SendNeverThrows(c: Config, d: EmailData, sendFails: bool)
    ensures SendOrderStatusEmail(c, d, sendFails).Normal?
    ensures !Configured(c) ==> SendOrderStatusEmail(c, d, sendFails) == Normal(None, false)
    ensures Configured(c) ==>
      var r := SendOrderStatusEmail(c, d, sendFails);
      && r.attempted.Some?
      && r.attempted.value.to == d.userEmail
      && r.attempted.value.subject == Subject(d.status)
      && r.attempted.value.from == "CampusEaters <" + c.gmailUser + ">"
      && (r.accepted <==> !sendFails)
  {
  }
}
