/**
 * The finance store: one `data` field holding the profile. Each setter
 * replaces its own section and keeps the others; reset empties the profile.
 */
module FinanceStore {
  import opened Js
  import opened FinanceData

  class FinanceStore {
    var data: Data

    constructor()
      ensures data == Empty
    {
      data := Empty;
    }

    method SetPersonalDetails(details: Personal)
      modifies this
      ensures data == old(data).(personal := Some(details))
    {
      data := data.(personal := Some(details));
    }

    method SetIncomeDetails(details: Obj<real>)
      modifies this
      ensures data == old(data).(income := Some(details))
    {
      data := data.(income := Some(details));
    }

    method SetExpenseDetails(details: Obj<real>)
      modifies this
      ensures data == old(data).(expenses := Some(details))
    {
      data := data.(expenses := Some(details));
    }

    method SetLoanDetails(details: Obj<Loan>)
      modifies this
      ensures data == old(data).(loans := Some(details))
    {
      data := data.(loans := Some(details));
    }

    method SetInsuranceDetails(details: Insurance)
      modifies this
      ensures data == old(data).(insurance := Some(details))
    {
      data := data.(insurance := Some(details));
    }

    method SetInvestmentDetails(details: Obj<Investment>)
      modifies this
      ensures data == old(data).(investments := Some(details))
    {
      data := data.(investments := Some(details));
    }

    method ResetData()
      modifies this
      ensures data == Empty
    {
      data := Empty;
    }
  }

  /**
   * A usage example for the income section: setting it twice with the same
   * details is setting it once.
   */
  method SetTwiceIsSetOnce(store: FinanceStore, details: Obj<real>)
    modifies store
    ensures store.data == old(store.data).(income := Some(details))
  {
    store.SetIncomeDetails(details);
    store.SetIncomeDetails(details);
  }

  /** A usage example: after setting the personal section, reset leaves the empty profile. */
  method ResetAfterSet(store: FinanceStore, details: Personal)
    modifies store
    ensures store.data == Empty
  {
    store.SetPersonalDetails(details);
    store.ResetData();
  }
}
