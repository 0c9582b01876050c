/**
 * The message text `process` composes before calling
 * `send_email_with_attachment`: its subject and its plain-text body.
 * Building the MIME message, base64-encoding the attachment and talking
 * SMTP are not modelled; the send is a boolean outcome.
 */
module Notice {
  import opened Options
  import opened Strings
  import opened Parser

  const SubjectPrefix := "Transfer Order - "

  /**
   * The subject line. The parser always sets the order number, so the
   * 'N/A' fallback of `info.get('order_number', 'N/A')` never applies: an
   * empty order number gives just the prefix.
   */
  function Subject(info: TransferInfo): string {
    SubjectPrefix + info.orderNumber
  }

  /** What a reader recovers from a subject line: the order number after the prefix. */
  function OrderNumberOfSubject(subject: string): Option<string> {
    if SubjectPrefix <= subject then Some(subject[|SubjectPrefix|..]) else None
  }

  /** The subject starts with the fixed prefix and carries the order number unchanged after it. */
  lemma {:induction false} SubjectRoundTrip(info: TransferInfo)
    ensures OrderNumberOfSubject(Subject(info)) == Some(info.orderNumber)
    ensures info.orderNumber == "" ==> Subject(info) == "Transfer Order - "
  {
    var s := Subject(info);
    assert s[..|SubjectPrefix|] == SubjectPrefix;
    assert s[|SubjectPrefix|..] == info.orderNumber;
  }

  /** Each body line of the triple-quoted f-string starts with four spaces. */
  const Indent := "    "

  /** One indented line `name: value` of the body, with its line break. */
  function BodyLine(name: string, value: string): string {
    Indent + name + ": " + value + "\n"
  }

  /** The opening of the body: a line break, the submitter's line and an indented empty line. */
  function BodyHead(username: string, email: string): string {
    "\n" + Indent + "New transfer order submitted by " + username + " (" + email + ")\n" + Indent + "\n"
  }

  /** The body f-string, with the indentation and line breaks of the source. */
  function Body(info: TransferInfo, username: string, email: string, trayType: string,
                quantity: string): string
  {
    BodyHead(username, email)
    + BodyLine("Order Number", info.orderNumber)
    + BodyLine("Date", info.date)
    + BodyLine("Customer", info.customer)
    + BodyLine("Address", info.address)
    + BodyLine("Tray Type", trayType)
    + BodyLine("Quantity", quantity)
    + Indent
  }

  /**
   * The body lists the record's four fields and both parameters, each as a
   * line `    name: value` ended by a line break.
   */
  lemma {:induction false} BodyListsFields(info: TransferInfo, username: string, email: string,
                                           trayType: string, quantity: string)
    ensures var b := Body(info, username, email, trayType, quantity);
            && Contains(b, BodyLine("Order Number", info.orderNumber))
            && Contains(b, BodyLine("Date", info.date))
            && Contains(b, BodyLine("Customer", info.customer))
            && Contains(b, BodyLine("Address", info.address))
            && Contains(b, BodyLine("Tray Type", trayType))
            && Contains(b, BodyLine("Quantity", quantity))
  {
    SixPartsContained(BodyHead(username, email),
                      BodyLine("Order Number", info.orderNumber), BodyLine("Date", info.date),
                      BodyLine("Customer", info.customer), BodyLine("Address", info.address),
                      BodyLine("Tray Type", trayType), BodyLine("Quantity", quantity), Indent);
  }

  /** Each of six consecutive parts of a string occurs in it. */
  lemma {:induction false} SixPartsContained(h: string, l1: string, l2: string, l3: string,
                                             l4: string, l5: string, l6: string, t: string)
    ensures var b := h + l1 + l2 + l3 + l4 + l5 + l6 + t;
            && Contains(b, l1) && Contains(b, l2) && Contains(b, l3)
            && Contains(b, l4) && Contains(b, l5) && Contains(b, l6)
  {
    var b := h + l1 + l2 + l3 + l4 + l5 + l6 + t;
    assert Contains(b, l1) by {
      ContainsInfix(h, l1, l2 + l3 + l4 + l5 + l6 + t);
      assert h + l1 + (l2 + l3 + l4 + l5 + l6 + t) == b;
    }
    assert Contains(b, l2) by {
      ContainsInfix(h + l1, l2, l3 + l4 + l5 + l6 + t);
      assert h + l1 + l2 + (l3 + l4 + l5 + l6 + t) == b;
    }
    assert Contains(b, l3) by {
      ContainsInfix(h + l1 + l2, l3, l4 + l5 + l6 + t);
      assert h + l1 + l2 + l3 + (l4 + l5 + l6 + t) == b;
    }
    assert Contains(b, l4) by {
      ContainsInfix(h + l1 + l2 + l3, l4, l5 + l6 + t);
      assert h + l1 + l2 + l3 + l4 + (l5 + l6 + t) == b;
    }
    assert Contains(b, l5) by {
      ContainsInfix(h + l1 + l2 + l3 + l4, l5, l6 + t);
      assert h + l1 + l2 + l3 + l4 + l5 + (l6 + t) == b;
    }
    assert Contains(b, l6) by {
      ContainsInfix(h + l1 + l2 + l3 + l4 + l5, l6, t);
    }
  }
}
