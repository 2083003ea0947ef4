/** The order confirmation of services/sms_service.py over the SMS gateway.
    The gateway's network call is abstract: whether it accepts a message is
    an input, and the gateway keeps a log of every attempt. */
module Sms {
  import opened Models

  /** The arguments of `SendSMS.send_order_confirmation`. */
  datatype Confirmation = Confirmation(phoneNumber: string, customerName: string, orderDetails: string)

  /** The text the customer receives. */
  function MessageText(c: Confirmation): string {
    "Hello " + c.customerName + ", your order has been placed. Details: " + c.orderDetails
  }

  /** One call of `sms.send(message, recipients, sender)` and whether it went through. */
  datatype Attempt = Attempt(message: string, recipients: seq<string>, sender: string, accepted: bool)

  /** What `sms.send` returns when it does not raise. */
  datatype Receipt = Receipt(message: string, recipient: string)

  class Gateway {
    /** `AT_SENDER_ID` from the configuration. */
    const senderId: string
    var attempts: seq<Attempt>

    constructor (senderId: string)
      ensures this.senderId == senderId && attempts == []
    {
      this.senderId := senderId;
      attempts := [];
    }

    /** `SendSMS.send_order_confirmation`: one attempt addressed to the
        customer's phone number; a failure is swallowed and yields `None`. */
    method SendOrderConfirmation(c: Confirmation, accepted: bool) returns (receipt: Option<Receipt>)
      modifies this
      ensures attempts == old(attempts) + [Attempt(MessageText(c), [c.phoneNumber], senderId, accepted)]
      ensures receipt == if accepted then Some(Receipt(MessageText(c), c.phoneNumber)) else None
    {
      attempts := attempts + [Attempt(MessageText(c), [c.phoneNumber], senderId, accepted)];
      if accepted {
        receipt := Some(Receipt(MessageText(c), c.phoneNumber));
      } else {
        receipt := None;
      }
    }
  }
}
