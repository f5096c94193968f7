/** The request records handed from the input layer to the account registry. */
module Requests {
  import opened Money

  /** AccountRequest: customerType 1 is Regular, accountType 1 is Savings; any other value selects the other kind. */
  datatype AccountRequest = AccountRequest(name: string, age: int, contact: string, address: string,
                                           customerType: int, accountType: int, initialDeposit: Cents)

  /** TransactionRequest: the receiver is only consulted for a transfer. */
  datatype TransactionRequest = TransactionRequest(userAccountNumber: string, receiverAccountNumber: string,
                                                   transactionType: string, amount: Cents)
}
