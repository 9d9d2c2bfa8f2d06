/** The addresses and scheme prefixes the shells test URLs against. */
module Addresses {
  /** The prefix of the internal pages. */
  const AlphaScheme: string := "alpha://"
  const NewTabUrl: string := "alpha://newtab"
  const StartUrl: string := "alpha://start"
  const SettingsUrl: string := "alpha://settings"
  const HistoryUrl: string := "alpha://history"

  const HttpScheme: string := "http://"
  const HttpsScheme: string := "https://"
}
