/**
 * The closed enumerations of the global `solana.wallets` API
 * (packages/core/standard/src/interfaces/global.ts).
 */
module GlobalTypes {

  /** Names of the events the registry emits; `registered` is the only one. */
  datatype Event = Registered

  /** Versions of the registry's own API shape. */
  datatype Version = V1_0_0 {

    /** The string value the enumeration member carries. */
    function Name(): string {
      match this
      case V1_0_0 => "1.0.0"
    }
  }
}
