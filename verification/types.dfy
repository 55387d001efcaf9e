/** The record shapes of app/types.ts: the raw dataset row and the canonical
    school. Korean field names of the raw row are given English identifiers;
    README.md lists the correspondence. */
module Types {
  import opened Wrappers

  /** A JavaScript number as produced by `parseFloat` once NaN is excluded:
      finite, or one of the two infinities. Only ever copied, never computed on. */
  datatype Number = Finite(value: real) | Infinite(negative: bool)

  /** One row of the bundled dataset. Only `Latitude`, `Longitude` and
      `설립명` are optional. */
  datatype SchoolRaw = SchoolRaw(
    officeCode: string,           // 시도교육청코드
    officeName: string,           // 시도교육청명
    adminCode: string,            // 행정표준코드
    schoolName: string,           // 학교명
    englishSchoolName: string,    // 영문학교명
    schoolKind: string,           // 학교종류명
    provinceName: string,         // 시도명
    jurisdiction: string,         // 관할조직명
    foundationName: Option<string>, // 설립명
    roadPostcode: string,         // 도로명우편번호
    roadAddress: string,          // 도로명주소
    latitude: Option<string>,     // Latitude
    longitude: Option<string>,    // Longitude
    roadAddressDetail: string,    // 도로명상세주소
    phoneNumber: string,          // 전화번호
    homepage: string,             // 홈페이지주소
    coedName: string,             // 남녀공학구분명
    faxNumber: string,            // 팩스번호
    highSchoolCategory: string,   // 고등학교구분명
    industrialClass: string,      // 산업체특별학급존재여부
    generalVocational: string,    // 고등학교일반전문구분명
    admissionPeriod: string,      // 입시전후기구분명
    dayNightName: string,         // 주야구분명
    foundedOn: string,            // 설립일자
    anniversary: string,          // 개교기념일
    modifiedOn: string            // 수정일자
  )

  /** The canonical school every other component works on. */
  datatype School = School(
    id: string,
    name: string,
    englishName: string,
    kind: string,
    establishment: string,
    address: string,
    addressDetail: string,
    latitude: Number,
    longitude: Number,
    phone: string,
    fax: string,
    website: string,
    coed: string,
    region: string,
    admissionTiming: string,
    dayNight: string,
    foundedDate: string
  )
}
