/** Ideal keys and hashes. */
module Keys {
  datatype Key = Key(id: nat)

  /** The fingerprint of a public key, or text that is not one. */
  datatype KeyDigest = KeyDigestOf(key: Key) | OtherText(text: string)

  const NO_DIGEST := OtherText("")

  datatype TokenDigest = TokenDigestOf(token: string) | OtherToken(text: string)

  datatype CADigest = CADigestOf(certificate: string) | OtherCA(text: string)
}
