/** The employee record, the two configuration constants and the fixed
    roster compiled into generate-assets.js. */
module Roster {

  /** One roster entry. `linkedin` is carried by every entry but never
      reaches any output. */
  datatype Employee = Employee(
    firstName: string,
    lastName: string,
    email: string,
    phone: string,
    linkedin: string,
    website: string)

  /** Address under which the profile pages are hosted (BASE_URL). */
  const BaseUrl := "https://cards.shipwright.biz"

  /** Organisation written into every card (COMPANY). */
  const Company := "Shipwright"

  const CompanyLinkedIn := "https://www.linkedin.com/company/shipwright/"
  const CompanyWebsite := "https://www.shipwright.biz"

  /** The five entries, in the order the generator visits them. */
  const Employees: seq<Employee> := [
    Employee("John", "Dixon", "jdixon@shipwright.biz", "954-249-0127", CompanyLinkedIn, CompanyWebsite),
    Employee("Lily", "Fletcher", "lfletcher@shipwright.biz", "904-314-0904", CompanyLinkedIn, CompanyWebsite),
    Employee("Justin", "Greenberg", "jgreenberg@shipwright.biz", "954-303-4432", CompanyLinkedIn, CompanyWebsite),
    Employee("Jakob", "Michels", "jmichels@shipwright.biz", "772-485-6417", CompanyLinkedIn, CompanyWebsite),
    Employee("Corey", "Page", "cpage@shipwright.biz", "239-450-0120", CompanyLinkedIn, CompanyWebsite)
  ]
}
