// Protocol vocabulary shared by several components.
module Types {

  datatype OrderStatus =
    | Pending
    | WaitingBuyerInvoice
    | WaitingPayment
    | Active
    | FiatSent
    | SettledHoldInvoice
    | Success
    | Canceled
    | Expired
    | CooperativelyCanceled
    | CanceledByAdmin
    | SettledByAdmin
    | CompletedByAdmin
    | Dispute
    | InProgress
    | WaitingTakerBond
    | WaitingMakerBond
}
