/** The job-parameters validator run before any step of the billing job. */
module Validation {

  /** String-valued job parameters, by name; an absent key reads as Java's `null`. */
  type JobParameters = map<string, string>

  const InputFileKey: string := "input.file"

  const InputFileRequired: string := "The 'input.file' parameter is required."

  /** `Invalid` stands for a thrown JobParametersInvalidException with its message. */
  datatype Validity = Valid | Invalid(message: string)

  /**
   * Accepts exactly the parameters whose `input.file` is present and non-empty;
   * every rejection carries the one fixed message.
   */
  function Validate(jobParameters: JobParameters): (r: Validity)
    ensures r == Valid <==> InputFileKey in jobParameters && jobParameters[InputFileKey] != ""
    ensures r != Valid ==> r == Invalid("The 'input.file' parameter is required.")
  {
    if InputFileKey !in jobParameters || jobParameters[InputFileKey] == "" then
      Invalid(InputFileRequired)
    else
      Valid
  }

  /** Only `input.file` is inspected: parameters that agree on it are judged alike. */
  lemma OnlyInputFileMatters(p: JobParameters, q: JobParameters)
    requires InputFileKey in p <==> InputFileKey in q
    requires InputFileKey in p ==> p[InputFileKey] == q[InputFileKey]
    ensures Validate(p) == Validate(q)
  {
  }

  /** Adding, changing or removing any other parameter never changes the verdict. */
  lemma OtherKeysIgnored(p: JobParameters, key: string, value: string)
    requires key != InputFileKey
    ensures Validate(p[key := value]) == Validate(p)
    ensures Validate(p - {key}) == Validate(p)
  {
  }
}
