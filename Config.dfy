/** Constants of the bot's configuration that the core depends on. */
module Config {
  /** Number of drops in one XRP; every amount in this model is a whole number of drops. */
  const Drops: nat := 1000000

  /** Largest amount in XRP the tip-bot API accepts in one tip call (the configured default). */
  const MaxXrpViaTip: nat := 500

  /** The same ceiling in drops. */
  const TipCap: nat := MaxXrpViaTip * Drops
}
