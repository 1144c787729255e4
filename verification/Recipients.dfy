/** The delivery record that the worker and the outgoing queue both update. */
module Recipients {

  datatype Recipient = Recipient(
    id: string,
    inbox: string,
    isPrimary: bool,
    isDelivered: bool,
    isUnreachable: bool,
    isGone: bool)
  {
    predicate IsFinished() {
      isDelivered || isUnreachable
    }
  }
}
