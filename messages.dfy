/** The notification messages queued for display. */
module Messages {

  /** A NotificationMessage: an HTML title, HTML content and a CSS class. */
  datatype NotificationMessage = NotificationMessage(title: string, content: string, cssClass: string)

  /** The CSS class a message gets when none is given. */
  const DefaultClass: string := "message"
}
