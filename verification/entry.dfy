/** One transfer of the statement of account, after its fields have been extracted
    (the state `Entry.__init__` sets up). */
module Entries {
  import opened Text

  datatype Entry = Entry(
    bookDate: string,
    valDate: string,
    amount: string,
    currency: string,
    creditor: string,
    debitor: string,
    subject: seq<string>,
    title: string)

  /** The entry built from already-extracted field values: the currency gets decimal commas,
      the amount and every other field are kept verbatim, and the title starts out as the creditor. */
  function NewEntry(bookDate: string, valDate: string, amount: string, currency: string,
                    creditor: string, debitor: string, subject: seq<string>): (e: Entry)
    ensures e.title == creditor && e.creditor == creditor && e.debitor == debitor
    ensures e.bookDate == bookDate && e.valDate == valDate && e.subject == subject
    ensures e.amount == amount
    ensures |e.currency| == |currency| && '.' !in e.currency
    ensures forall i :: 0 <= i < |currency| ==>
      e.currency[i] == if currency[i] == '.' then ',' else currency[i]
  {
    Entry(bookDate, valDate, amount, DecimalComma(currency), creditor, debitor, subject, creditor)
  }
}
