/** The upstream records the scraper reads, one shape per employer, as they
    arrive after the JSON response has been unpacked. */
module ScraperTypes {
  import opened JobStore

  datatype MicrosoftProperties = MicrosoftProperties(
    description: string,
    locations: seq<string>,
    primaryLocation: string,
    workSiteFlexibility: string,
    profession: string,
    discipline: string,
    jobType: string,
    roleType: string,
    employmentType: string,
    educationLevel: string)

  datatype MicrosoftJob = MicrosoftJob(
    jobId: string,
    title: string,
    postingDate: Date,
    properties: MicrosoftProperties)

  datatype GoogleDescription = GoogleDescription(intro: string)

  datatype GoogleLocation = GoogleLocation(display: string)

  /** `locations` is optional: the scraper guards it with `job.locations &&`,
      so a posting without the field is a case it handles. */
  datatype GoogleJob = GoogleJob(
    id: string,
    title: string,
    publish_date: string,
    apply_url: string,
    description: GoogleDescription,
    locations: Option<seq<GoogleLocation>>)

  datatype AmazonJob = AmazonJob(
    id: string,
    title: string,
    posted_date: string,
    job_path: string,
    location: string,
    description: string,
    job_category: string,
    job_schedule_type: string)
}
