/**
 * Concrete conversations with the routing rule, showing the containment
 * direction of the FAQ test and the two provider outcomes.
 */
module Scenarios {
  import opened Wrappers
  import opened Text
  import opened Faq
  import opened Provider
  import opened Router

  const PaymentFaq := [Entry("как оплатить", "Оплата через сайт.")]

  /** A message that is part of the question is answered from the FAQ, after
      lower-casing the capital К. */
  lemma PartOfQuestionAnswered(text: string, provider: Call -> Response)
    requires text == "Как оплатить"
    ensures Route(PaymentFaq, text, None, provider) == Outcome("Оплата через сайт.", None, None)
  {
    var question := PaymentFaq[0].question;
    LowersTo(text, question);
    LowerIsLower(question);
    assert Matches(Lower(text), PaymentFaq[0]);
    assert FirstMatch(PaymentFaq, Lower(text)) == Some(0);
  }

  /** "Как оплатить" lowers to "как оплатить". */
  lemma LowersTo(text: string, question: string)
    requires text == "Как оплатить" && question == "как оплатить"
    ensures Lower(text) == question && IsLower(question)
  {
    var message := Lower(text);
    forall i | 0 <= i < |message| ensures message[i] == question[i] {
      if i > 0 {
        assert text[i] == question[i] && !IsUpper(text[i]);
      }
    }
  }

  /** A message that merely CONTAINS the question is not answered from the
      FAQ: the question is the haystack, not the needle, so it goes to the
      provider. */
  lemma ContainingQuestionNotAnswered(text: string)
    requires text == "Здравствуйте, как оплатить взнос?"
    ensures Lookup(PaymentFaq, Lower(text)) == None
  {
    assert |text| == 33;
    LongMessageNeverMatches(PaymentFaq, Lower(text));
  }

  /** An OK reply with text and a session id becomes the reply and the stored
      session. */
  lemma ModelAnswerStored(stored: Option<string>)
    ensures var provider := (c: Call) => Response(HttpOk, Some("Ответ модели"), Some("abc"));
            var o := Route([], "Привет", stored, provider);
            o.reply == "Ответ модели" && o.session == Some("abc")
  {
  }

  /** A non-OK status gives the apology and keeps whatever was stored. */
  lemma ErrorKeepsStored(stored: Option<string>)
    ensures var provider := (c: Call) => Response(500, None, None);
            var o := Route(PaymentFaq, "Здравствуйте, как оплатить взнос?", stored, provider);
            o.reply == ApiErrorMessage && o.session == stored
  {
    ContainingQuestionNotAnswered("Здравствуйте, как оплатить взнос?");
  }
}
