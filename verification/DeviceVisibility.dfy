// The visibility settings shared by the handshake and the settings models.
module DeviceVisibilities {
  datatype Visibility = Unspecified | Everyone | AllContacts | SelectedContacts | Hidden | SelfShare
}
