/** Entities shared by the onboarding screens and the profile widgets. */
module ProfileTypes {

  /** The ownership tag of a vehicle: `'own' | 'want'`. */
  datatype Ownership = Own | Want

  /** A vehicle as the search widget emits it: `{ name, ownership }`. */
  datatype Vehicle = Vehicle(name: string, ownership: Ownership)

  /** What an avatar slot shows: the picture, or a placeholder with initials. */
  datatype Avatar = Image(src: string) | Placeholder(initials: string)

  /** The client-side routes the onboarding screens navigate to. */
  const WelcomeRoute: string := "/welcome"
  const Step3Route: string := "/onboarding/step3"
}
