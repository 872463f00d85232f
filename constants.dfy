/** The form's starting values from constants.ts. */
module Constants {
  import opened Types

  const DefaultRequirements: UserRequirements :=
    UserRequirements(
      rooms := 2,
      hasHall := true,
      hasKitchen := true,
      hasBalcony := true,
      totalArea := 1000,
      country := "United States",
      additionalNotes := "")
}
