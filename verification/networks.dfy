/** The chain networks the wallet knows. */
module Networks {
  datatype Network = Mainnet | Chipnet | Regtest
}
