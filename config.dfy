/** The settings record, read once at start-up and never changed. Menu
    items are kept as the strings they are drawn as. */
module Configuration {

  datatype Config = Config(
    customerArrivalWait: nat,
    maxLineSize: nat,
    rightSideMenuPadding: nat,
    drinks: map<string, seq<string>>)

  const DefaultCustomerArrivalWait: nat := 10
  const DefaultMaxLineSize: nat := 10
  const DefaultRightSideMenuPadding: nat := 1

  /** One menu, for level "0", offering coffee. */
  function DefaultDrinks(): map<string, seq<string>> {
    map["0" := ["Coffee"]]
  }

  /** The settings when every field is left out of the configuration file. */
  function DefaultConfig(): Config {
    Config(DefaultCustomerArrivalWait, DefaultMaxLineSize, DefaultRightSideMenuPadding, DefaultDrinks())
  }
}
